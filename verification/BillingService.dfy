/** The billing engine as the program runs it: table rows updated field by field inside one transaction, early
    returns, and a sweep that loops over rows. Every method is tied to its function on the database snapshot. */
module BillingService {
  import opened Prelude
  import opened Billing
  import opened BillingPromises

  class Service {
    const settings: Settings
    var users: map<UserId, Plan>
    var subs: map<UserId, Subscription>
    var checkouts: map<Ref, Checkout>
    var ledger: map<(Ref, Ref), LedgerRow>
    var payments: map<(Ref, Option<Ref>), Payment>

    constructor (settings: Settings)
      ensures View() == Db(settings, map[], map[], map[], map[], map[])
    {
      this.settings := settings;
      users, subs, checkouts, ledger, payments := map[], map[], map[], map[], map[];
    }

    function View(): Db
      reads this
    {
      Db(settings, users, subs, checkouts, ledger, payments)
    }

    /** The fields an event sets on a row; an absent optional field leaves the stored value. */
    method SetFields(row0: Subscription, e: Event, status: Status) returns (row: Subscription)
      ensures row == Overwrite(Some(row0), e, status) && HoldsEvent(Some(row0), e, status, row)
    {
      row := row0.(plan := Pro, status := status, provider := e.provider);
      if e.customer.Some? {
        row := row.(customer := e.customer);
      }
      if e.subscription.Some? {
        row := row.(subscription := e.subscription);
      }
      if e.periodStart.Some? {
        row := row.(periodStart := e.periodStart);
      }
      if e.periodEnd.Some? {
        row := row.(periodEnd := e.periodEnd);
      }
      row := row.(cancelAtPeriodEnd := e.cancelAtPeriodEnd, eventAt := Some(e.occurredAt));
    }

    /** The one place that writes a subscription row from an event, and the plan it entitles. */
    method ApplyVerifiedBillingEvent(u: UserId, e: Event, status: Status, now: Time)
      requires u in users
      modifies this`subs, this`users
      ensures View() == ApplyVerified(old(View()), u, e, status, now)
    {
      var row := BLANK;
      if u in subs {
        row := subs[u];
      }
      row := SetFields(row, e, status);
      subs := subs[u := row];
      users := users[u := EntitledPlan(Pro, status, row.periodEnd, now, settings.grace)];
    }

    method FindOwner(id: Ref) returns (owner: Option<UserId>)
      requires UniqueSubscriptionIds(View())
      ensures owner == OwnerOf(View(), id)
    {
      var holders := set v | v in subs && subs[v].subscription == Some(id);
      if v :| v in holders {
        assert Holds(View(), v, id);
        return Some(v);
      }
      assert forall v :: Holds(View(), v, id) ==> v in holders;
      return None;
    }

    method ResolveAccount(e: Event, pick: UserId) returns (r: Resolution)
      requires Valid(View()) && ValidPick(View(), e, pick)
      ensures r == Resolve(View(), e, pick)
      ensures exists named :: NamedBy(View(), e, named) && Resolves(View(), e, named, r)
    {
      ResolutionIsKept(View(), e, pick);
      var checkout: Option<Ref> := None;
      var account: Option<UserId> := None;
      if e.checkout.Some? && e.checkout.value in checkouts {
        checkout := e.checkout;
        if checkouts[checkout.value].provider != e.provider {
          return Conflict;
        }
        account := Some(checkouts[checkout.value].owner);
      }
      var holder: Option<UserId> := None;
      if e.subscription.Some? {
        holder := FindOwner(e.subscription.value);
      }
      if holder.None? && e.customer.Some? && CustomerHolders(View(), e.provider, e.customer.value) != {} {
        holder := Some(pick);
      }
      if holder.Some? {
        if account.Some? && account != holder {
          return Conflict;
        }
        account := holder;
      }
      return Found(account, checkout);
    }

    method HeldByAnother(e: Event, u: UserId) returns (held: bool)
      ensures held == OwnedByAnother(View(), e, u) == AnotherHas(View(), e, u)
    {
      AnotherHasIsOwned(View(), e, u);
      held := false;
      if e.subscription.Some? {
        var others := set v | v in subs && v != u && subs[v].subscription == e.subscription;
        if v :| v in others {
          assert Holds(View(), v, e.subscription.value);
          held := true;
        } else {
          assert forall v :: v != u && Holds(View(), v, e.subscription.value) ==> v in others;
        }
      }
    }

    method MarkCompleted(checkout: Ref, now: Time)
      requires checkout in checkouts
      modifies this`checkouts
      ensures View() == CompleteCheckout(old(View()), Some(checkout), now)
      ensures Completes(old(View()), View(), Some(checkout), now)
    {
      if checkouts[checkout].status == Pending {
        checkouts := checkouts[checkout := checkouts[checkout].(status := Completed, completedAt := Some(now))];
      }
    }

    /** The order rule against the row on file, if there is one: the refusal, or none. */
    method CheckOrder(e: Event, u: UserId, status: Status) returns (refusal: Option<Result>)
      ensures var row := SubOf(View(), u);
              refusal == if Due(row, e, status) then None
                         else if OtherIds(row.value, e) then Some(Result(Ignored, OtherSubscription, Some(u)))
                         else Some(Result(Stale, OlderThanApplied, Some(u)))
    {
      if u in subs {
        var current := subs[u];
        var last := current.eventAt;
        RankIsRestriction(status, current.status);
        if current.subscription.Some? && e.subscription.Some? && current.subscription != e.subscription {
          if !(status == Active && (last.None? || e.occurredAt > last.value)) {
            return Some(Result(Ignored, OtherSubscription, Some(u)));
          }
        } else if last.Some? {
          if e.occurredAt < last.value {
            return Some(Result(Stale, OlderThanApplied, Some(u)));
          }
          if e.occurredAt == last.value && StatusRank(status) < StatusRank(current.status) {
            return Some(Result(Stale, OlderThanApplied, Some(u)));
          }
        }
      }
      return None;
    }

    method ApplySubscription(e: Event, u: UserId, checkout: Option<Ref>, now: Time) returns (result: Result)
      requires u in users && (checkout.Some? ==> checkout.value in checkouts)
      modifies this`subs, this`users, this`checkouts
      ensures (View(), result) == ApplySubscriptionEvent(old(View()), e, u, checkout, now)
      ensures SubscriptionKept(old(View()), e, u, checkout, now, View(), result)
    {
      SubscriptionIsKept(View(), e, u, checkout, now);
      if StatusGiven(e).Some? {
        OrderIsDue(SubOf(View(), u), e, StatusGiven(e).value);
      }
      var plan := e.plan;
      if plan.NoPlan? && checkout.Some? {
        plan := checkouts[checkout.value].plan;
      }
      if plan != Named(Pro) {
        return Result(Rejected, PlanNotPurchasable, Some(u));
      }
      var status := ValidateStatus(e.status);
      if status.None? {
        return Result(Rejected, InvalidStatus, Some(u));
      }
      var held := HeldByAnother(e, u);
      if held {
        return Result(Rejected, OwnedByAnotherAccount, Some(u));
      }
      var refusal := CheckOrder(e, u, status.value);
      if refusal.Some? {
        return refusal.value;
      }
      ApplyVerifiedBillingEvent(u, e, status.value, now);
      if checkout.Some? && status.value == Active {
        MarkCompleted(checkout.value, now);
      }
      return Result(Processed, NoDetail, Some(u));
    }

    method Link(e: Event, u: UserId, checkout: Ref, now: Time) returns (result: Result)
      requires checkout in checkouts
      modifies this`subs, this`checkouts
      ensures (View(), result) == LinkCheckout(old(View()), e, u, checkout, now)
      ensures LinkKept(old(View()), e, u, checkout, now, View(), result)
    {
      LinkIsKept(View(), e, u, checkout, now);
      var held := HeldByAnother(e, u);
      if held {
        return Result(Rejected, OwnedByAnotherAccount, Some(u));
      }
      var row := BLANK.(provider := e.provider);
      if u in subs {
        row := subs[u];
      }
      if e.customer.Some? && row.customer.None? {
        row := row.(customer := e.customer);
      }
      if e.subscription.Some? && row.subscription.None? {
        row := row.(subscription := e.subscription);
      }
      subs := subs[u := row];
      MarkCompleted(checkout, now);
      return Result(Processed, LinkedOnly, Some(u));
    }

    method RecordPayment(e: Event, u: UserId, status: PaymentStatus) returns (result: Result)
      modifies this`payments
      ensures (View(), result) == ApplyPayment(old(View()), e, u, status)
      ensures PaymentKept(old(View()), e, u, status, View(), result)
    {
      PaymentIsKept(View(), e, u, status);
      var key := (e.provider, e.paymentId);
      if key !in payments {
        payments := payments[key := Payment(u, e.subscription, e.amount, e.currency, status, e.occurredAt)];
        return Result(Processed, NoDetail, Some(u));
      }
      var p := payments[key];
      if p.occurredAt > e.occurredAt || (p.status == Refunded && status != Refunded) {
        return Result(Stale, OlderThanApplied, Some(u));
      }
      p := p.(status := status, occurredAt := e.occurredAt);
      if e.amount.Some? {
        p := p.(amount := e.amount);
      }
      if e.currency.Some? {
        p := p.(currency := e.currency);
      }
      payments := payments[key := p];
      return Result(Processed, NoDetail, Some(u));
    }

    method DispatchEvent(e: Event, now: Time, pick: UserId) returns (result: Result)
      requires Valid(View()) && ValidPick(View(), e, pick)
      modifies this
      ensures (View(), result) == Dispatch(old(View()), e, now, pick)
      ensures Dispatched(old(View()), e, now, View(), result)
    {
      EventIsDispatched(View(), e, now, pick);
      if e.kind == UnknownKind {
        return Result(Ignored, UnhandledType, None);
      }
      var r := ResolveAccount(e, pick);
      if r.Conflict? {
        return Result(Rejected, ReferenceConflict, None);
      }
      if r.account.None? {
        return Unresolved(View(), e, now);
      }
      var u := r.account.value;
      if AboutSubscription(e) {
        result := ApplySubscription(e, u, r.checkout, now);
      } else if e.kind == CheckoutCompleted {
        if r.checkout.None? {
          return Result(Ignored, NoCheckoutReference, Some(u));
        }
        result := Link(e, u, r.checkout.value, now);
      } else if e.kind.payment.Some? {
        result := RecordPayment(e, u, e.kind.payment.value);
      } else {
        result := Result(Ignored, UnhandledType, Some(u));
      }
    }

    /** Insert the ledger row; if it exists, take it over only when failed, deferred, or claimed too long ago. */
    method ClaimEvent(e: Event, now: Time) returns (claimed: bool)
      modifies this`ledger
      ensures claimed == Claimable(old(View()), e, now) && View() == Claim(old(View()), e, now)
      ensures ClaimKept(old(View()), e, now, View(), claimed)
      ensures claimed ==> EventKey(e) in ledger
    {
      ClaimIsKept(View(), e, now);
      var key := EventKey(e);
      if key !in ledger {
        ledger := ledger[key := LedgerRow(Received, now, 1, None, None)];
        return true;
      }
      var row := ledger[key];
      if row.status in {LedgerFailed, LedgerDeferred} ||
         (row.status == Received && row.receivedAt < now - CLAIM_LEASE) {
        ledger := ledger[key := row.(status := Received, receivedAt := now, attempts := row.attempts + 1)];
        return true;
      }
      return false;
    }

    /** One delivery. `broken` is an internal error before the second commit: all of it is rolled back and the
        ledger row is left failed, so that a later delivery is processed. */
    method ProcessVerifiedEvent(e: Event, now: Time, pick: UserId, broken: bool) returns (result: Option<Result>)
      requires Valid(View()) && ValidPick(View(), e, pick)
      modifies this
      ensures !broken || !Claimable(old(View()), e, now) ==>
                result.Some? && (View(), result.value) == Process(old(View()), e, now, pick)
      ensures broken && Claimable(old(View()), e, now) ==>
                result.None? && View() == MarkFailed(Claim(old(View()), e, now), e)
                && Claimable(View(), e, now)
    {
      var claimed := ClaimEvent(e, now);
      if !claimed {
        return Some(Result(Duplicate, NoDetail, None));
      }
      assert forall v, id :: Holds(View(), v, id) <==> Holds(old(View()), v, id);
      var key := EventKey(e);
      if broken {
        ledger := ledger[key := ledger[key].(status := LedgerFailed)];
        return None;
      }
      ghost var claimedView := View();
      var r := DispatchEvent(e, now, pick);
      DispatchKeepsLedger(claimedView, e, now, pick);
      ledger := ledger[key := ledger[key].(
        status := LedgerStatusOf(r.outcome), account := r.account,
        processedAt := if r.outcome == Deferred then None else Some(now))];
      return Some(r);
    }

    method Downgrade(u: UserId, ghost before: Db, ghost done: set<UserId>)
      requires u in subs && u in users && u !in done && View() == Sweep(before, done)
      modifies this`subs, this`users
      ensures View() == Sweep(before, done + {u})
    {
      SweepOne(before, done, u);
      subs := subs[u := subs[u].(status := Canceled)];
      if users[u] != Free {
        users := users[u := Free];
      }
      assert users == old(users)[u := Free];
    }

    /** The sweep: every lapsed paid row is canceled and its account returned to free, one row at a time. */
    method ReconcileLapsedSubscriptions(now: Time) returns (downgraded: nat)
      modifies this`subs, this`users
      ensures View() == Reconcile(old(View()), now) && SweepKept(old(View()), now, View())
      ensures downgraded == |set u | u in old(subs) && Over(old(View()), u, now)|
    {
      var rows := set u | u in subs && Lapsed(View(), u, now);
      ghost var before, done := View(), {};
      downgraded := 0;
      SweepNone(before);
      while rows != {}
        invariant ToVisit(before, now, rows, done)
        invariant View() == Sweep(before, done) && downgraded == |done|
      {
        var u :| u in rows;
        if u in users {
          Downgrade(u, before, done);
          downgraded := downgraded + 1;
          done := done + {u};
        }
        rows := rows - {u};
      }
      NothingToVisit(before, now, done);
      SweepIsKept(before, now);
    }
  }

  /** Rows still to be visited are lapsed and not downgraded yet; the other lapsed accounts are downgraded. */
  predicate ToVisit(db: Db, now: Time, rows: set<UserId>, done: set<UserId>) {
    && rows !! done
    && (forall u :: u in rows ==> u in db.subs && Lapsed(db, u, now))
    && (forall u :: u in done ==> u in LapsedAccounts(db, now))
    && (forall u :: u in LapsedAccounts(db, now) ==> u in rows || u in done)
  }

  lemma NothingToVisit(db: Db, now: Time, done: set<UserId>)
    requires ToVisit(db, now, {}, done)
    ensures done == LapsedAccounts(db, now)
  {
  }

  lemma SweepNone(db: Db)
    ensures Sweep(db, {}) == db
  {
  }

  lemma SweepOne(db: Db, done: set<UserId>, u: UserId)
    requires u in db.subs && u in db.users && u !in done
    ensures var db1 := Sweep(db, done);
            Sweep(db, done + {u})
              == db1.(subs := db1.subs[u := db1.subs[u].(status := Canceled)], users := db1.users[u := Free])
  {
  }

  lemma DispatchKeepsLedger(db: Db, e: Event, now: Time, pick: UserId)
    ensures Dispatch(db, e, now, pick).0.ledger == db.ledger
  {
  }
}
