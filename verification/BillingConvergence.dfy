/** At-least-once, out-of-order delivery of the events of one subscription: what every order agrees on, and exactly
    when it also agrees on the period end (and so on the cached plan). */
module BillingConvergence {
  import opened Prelude
  import opened Billing

  // ---------------------------------------------------------------- keys: (occurred_at, status rank)

  type Key = Option<(Time, nat)>

  predicate Leq(a: Key, b: Key) {
    a.None? || (b.Some? && (a.value.0 < b.value.0 || (a.value.0 == b.value.0 && a.value.1 <= b.value.1)))
  }

  function KeyOfRow(row: Subscription): Key {
    if row.eventAt.None? then None else Some((row.eventAt.value, StatusRank(row.status)))
  }

  function KeyOf(e: Event): Key {
    Some((e.occurredAt, StatusRank(StatusOf(e))))
  }

  // ---------------------------------------------------------------- deliveries

  datatype Delivery = Delivery(event: Event, now: Time, pick: UserId)

  ghost function After(db: Db, ds: seq<Delivery>): Db {
    if ds == [] then db
    else Process(After(db, ds[..|ds| - 1]), ds[|ds| - 1].event, ds[|ds| - 1].now, ds[|ds| - 1].pick).0
  }

  /** Account `u` has subscription `id` on file, and `e` is a valid subscription event about it. */
  ghost predicate Relevant(db: Db, u: UserId, id: Ref, e: Event) {
    && AboutSubscription(e)
    && e.subscription == Some(id)
    && ValidateStatus(e.status).Some?
    && (e.checkout.Some? && e.checkout.value in db.checkouts ==>
          db.checkouts[e.checkout.value].owner == u && db.checkouts[e.checkout.value].provider == e.provider)
    && EffectivePlan(db, e, KnownCheckout(db, e)) == Named(Pro)
  }

  ghost predicate LinkedAccount(db: Db, u: UserId, id: Ref) {
    && u in db.users
    && Holds(db, u, id)
    && forall v :: Holds(db, v, id) ==> v == u
  }

  /** The two things an event can change about the account. */
  datatype Account = Account(row: Subscription, plan: Plan)

  function AccountOf(db: Db, u: UserId): Account
    requires u in db.subs && u in db.users
  {
    Account(db.subs[u], db.users[u])
  }

  /** The effect of one event on a linked account: dropped if its key is below the row's, otherwise written. */
  function Absorb(a: Account, e: Event, now: Time, grace: nat): Account {
    if !Leq(KeyOfRow(a.row), KeyOf(e)) then a
    else
      var row := Overwrite(Some(a.row), e, StatusOf(e));
      Account(row, EntitledPlan(Pro, StatusOf(e), row.periodEnd, now, grace))
  }

  ghost predicate SameReferences(db: Db, db': Db, u: UserId) {
    && db'.settings == db.settings
    && db'.checkouts.Keys == db.checkouts.Keys
    && (forall r :: r in db.checkouts ==>
          && db'.checkouts[r].owner == db.checkouts[r].owner
          && db'.checkouts[r].provider == db.checkouts[r].provider
          && db'.checkouts[r].plan == db.checkouts[r].plan)
    && (forall v :: v != u ==> SubOf(db', v) == SubOf(db, v))
  }

  lemma LinkedResolution(db: Db, u: UserId, id: Ref, e: Event, pick: UserId)
    requires LinkedAccount(db, u, id) && Relevant(db, u, id, e)
    ensures Resolve(db, e, pick) == Found(Some(u), KnownCheckout(db, e))
    ensures !OwnedByAnother(db, e, u)
  {
    assert OwnerOf(db, id) == Some(u);
  }

  /** On a linked account the order rule is exactly: not below the key on file. */
  lemma VerdictIsKeyOrder(row: Subscription, e: Event)
    requires row.subscription.Some? && row.subscription == e.subscription
    ensures OrderVerdict(Some(row), e, StatusOf(e)) ==
              if Leq(KeyOfRow(row), KeyOf(e)) then Apply(StatusOf(e)) else Refuse(Stale, OlderThanApplied)
  {
  }

  lemma DecideIsKeyOrder(db: Db, u: UserId, id: Ref, e: Event)
    requires LinkedAccount(db, u, id) && Relevant(db, u, id, e)
    ensures Decide(db, e, u, KnownCheckout(db, e)) ==
              if Leq(KeyOfRow(db.subs[u]), KeyOf(e)) then Apply(StatusOf(e)) else Refuse(Stale, OlderThanApplied)
  {
    LinkedResolution(db, u, id, e, 0);
    VerdictIsKeyOrder(db.subs[u], e);
  }

  lemma LinkedStays(db: Db, db': Db, u: UserId, id: Ref)
    requires LinkedAccount(db, u, id) && SameReferences(db, db', u)
    requires u in db'.users && u in db'.subs && db'.subs[u].subscription == Some(id)
    ensures LinkedAccount(db', u, id)
  {
    forall v | Holds(db', v, id)
      ensures v == u
    {
      assert v == u || SubOf(db', v) == SubOf(db, v);
      assert v == u || Holds(db, v, id);
    }
  }

  lemma ApplyAbsorbs(db: Db, u: UserId, id: Ref, e: Event, now: Time)
    requires LinkedAccount(db, u, id) && Relevant(db, u, id, e)
    ensures var (db', result) := ApplySubscriptionEvent(db, e, u, KnownCheckout(db, e), now);
            && LinkedAccount(db', u, id) && SameReferences(db, db', u)
            && AccountOf(db', u) == Absorb(AccountOf(db, u), e, now, db.settings.grace)
            && result.outcome in {Processed, Stale}
            && db'.ledger == db.ledger
  {
    DecideIsKeyOrder(db, u, id, e);
    var db' := ApplySubscriptionEvent(db, e, u, KnownCheckout(db, e), now).0;
    var row := Overwrite(SubOf(db, u), e, StatusOf(e));
    assert db'.subs == if Leq(KeyOfRow(db.subs[u]), KeyOf(e)) then db.subs[u := row] else db.subs;
    LinkedStays(db, db', u, id);
  }

  lemma DispatchAbsorbs(db: Db, u: UserId, id: Ref, e: Event, now: Time, pick: UserId)
    requires LinkedAccount(db, u, id) && Relevant(db, u, id, e)
    ensures Dispatch(db, e, now, pick) == ApplySubscriptionEvent(db, e, u, KnownCheckout(db, e), now)
  {
    LinkedResolution(db, u, id, e, pick);
  }

  predicate Handled(db: Db, e: Event) {
    EventKey(e) in db.ledger && db.ledger[EventKey(e)].status in {LedgerProcessed, LedgerIgnored, LedgerRejected}
  }

  /** The ledgers agree on every other event. */
  ghost predicate SameElsewhere(ledger: map<(Ref, Ref), LedgerRow>, ledger': map<(Ref, Ref), LedgerRow>,
                                key: (Ref, Ref)) {
    forall k :: k != key ==> (k in ledger' <==> k in ledger) && (k in ledger ==> ledger'[k] == ledger[k])
  }

  lemma FinishAbsorbs(db: Db, u: UserId, id: Ref, e: Event, now: Time, pick: UserId)
    requires LinkedAccount(db, u, id) && Relevant(db, u, id, e) && EventKey(e) in db.ledger
    ensures var db' := Finish(db, e, now, pick).0;
            && LinkedAccount(db', u, id) && SameReferences(db, db', u) && Handled(db', e)
            && AccountOf(db', u) == Absorb(AccountOf(db, u), e, now, db.settings.grace)
            && SameElsewhere(db.ledger, db'.ledger, EventKey(e))
  {
    DispatchAbsorbs(db, u, id, e, now, pick);
    ApplyAbsorbs(db, u, id, e, now);
    LinkedStays(db, Finish(db, e, now, pick).0, u, id);
  }

  /** A delivery of a relevant event: absorbed once, and a no-op on the whole database ever after. */
  lemma ProcessAbsorbs(db: Db, u: UserId, id: Ref, d: Delivery)
    requires LinkedAccount(db, u, id) && Relevant(db, u, id, d.event)
    requires EventKey(d.event) !in db.ledger || Handled(db, d.event)
    ensures var db' := Process(db, d.event, d.now, d.pick).0;
            && LinkedAccount(db', u, id) && SameReferences(db, db', u) && Handled(db', d.event)
            && (Handled(db, d.event) ==> db' == db)
            && (!Handled(db, d.event) ==>
                 AccountOf(db', u) == Absorb(AccountOf(db, u), d.event, d.now, db.settings.grace))
            && SameElsewhere(db.ledger, db'.ledger, EventKey(d.event))
  {
    if !Handled(db, d.event) {
      var db1 := Claim(db, d.event, d.now);
      LinkedStays(db, db1, u, id);
      FinishAbsorbs(db1, u, id, d.event, d.now, d.pick);
    }
  }

  // ---------------------------------------------------------------- the deliveries of a run, as a set

  function EventsOf(ds: seq<Delivery>): set<Event> {
    set d | d in ds :: d.event
  }

  /** Fresh, relevant events; an event id names one event. */
  ghost predicate Deliverable(db: Db, u: UserId, id: Ref, ds: seq<Delivery>) {
    && (forall d :: d in ds ==> Relevant(db, u, id, d.event) && EventKey(d.event) !in db.ledger)
    && (forall d, d' :: d in ds && d' in ds && EventKey(d.event) == EventKey(d'.event) ==> d.event == d'.event)
  }

  /** After a run: every delivered event is handled, nothing else was entered in the ledger. */
  ghost predicate RunState(db: Db, u: UserId, id: Ref, ds: seq<Delivery>) {
    var db' := After(db, ds);
    && LinkedAccount(db', u, id) && SameReferences(db, db', u)
    && (forall d :: d in ds ==> Handled(db', d.event))
    && (forall k :: k in db'.ledger && k !in db.ledger ==> exists d :: d in ds && EventKey(d.event) == k)
  }

  function Init(ds: seq<Delivery>): seq<Delivery>
    requires ds != []
  {
    ds[..|ds| - 1]
  }

  function LastOf(ds: seq<Delivery>): Delivery
    requires ds != []
  {
    ds[|ds| - 1]
  }

  lemma LastInRun(ds: seq<Delivery>)
    requires ds != []
    ensures forall d :: d in ds <==> d in Init(ds) || d == LastOf(ds)
  {
    assert ds == Init(ds) + [LastOf(ds)];
  }

  /** The ledger tells a first delivery from a repeated one. */
  lemma HandledIsRepeated(db: Db, u: UserId, id: Ref, ds: seq<Delivery>)
    requires ds != [] && Deliverable(db, u, id, ds) && RunState(db, u, id, Init(ds))
    ensures var db1 := After(db, Init(ds));
            && (Handled(db1, LastOf(ds).event) <==> LastOf(ds).event in EventsOf(Init(ds)))
            && (EventKey(LastOf(ds).event) !in db1.ledger || Handled(db1, LastOf(ds).event))
  {
    LastInRun(ds);
    var db1, d := After(db, Init(ds)), LastOf(ds);
    if EventKey(d.event) in db1.ledger {
      var x :| x in Init(ds) && EventKey(x.event) == EventKey(d.event);
      assert x.event == d.event;
    }
  }

  lemma StillRelevant(db: Db, db': Db, u: UserId, id: Ref, e: Event)
    requires SameReferences(db, db', u) && Relevant(db, u, id, e)
    ensures Relevant(db', u, id, e)
  {
  }

  lemma LedgerStep(db: Db, u: UserId, id: Ref, ds: seq<Delivery>)
    requires ds != [] && Deliverable(db, u, id, ds) && RunState(db, u, id, Init(ds))
    ensures RunState(db, u, id, ds)
    ensures var (init, d) := (Init(ds), LastOf(ds));
            AccountOf(After(db, ds), u) ==
              if d.event in EventsOf(init) then AccountOf(After(db, init), u)
              else Absorb(AccountOf(After(db, init), u), d.event, d.now, db.settings.grace)
  {
    var db1, d := After(db, Init(ds)), LastOf(ds);
    HandledIsRepeated(db, u, id, ds);
    StillRelevant(db, db1, u, id, d.event);
    ProcessAbsorbs(db1, u, id, d);
    LedgerEntries(db, u, id, ds);
  }

  lemma LedgerEntries(db: Db, u: UserId, id: Ref, ds: seq<Delivery>)
    requires ds != [] && RunState(db, u, id, Init(ds))
    requires var (db1, db2, d) := (After(db, Init(ds)), After(db, ds), LastOf(ds));
             Handled(db2, d.event) && SameElsewhere(db1.ledger, db2.ledger, EventKey(d.event))
    ensures forall x :: x in ds ==> Handled(After(db, ds), x.event)
    ensures forall k :: k in After(db, ds).ledger && k !in db.ledger ==> exists x :: x in ds && EventKey(x.event) == k
  {
    var db1, db2, d := After(db, Init(ds)), After(db, ds), LastOf(ds);
    LastInRun(ds);
    forall x | x in ds
      ensures Handled(db2, x.event)
    {
      if EventKey(x.event) != EventKey(d.event) {
        assert x in Init(ds) && Handled(db1, x.event);
      }
    }
    forall k | k in db2.ledger && k !in db.ledger
      ensures exists x :: x in ds && EventKey(x.event) == k
    {
      if k in db1.ledger {
        var x :| x in Init(ds) && EventKey(x.event) == k;
      } else {
        assert d in ds && EventKey(d.event) == k;
      }
    }
  }

  lemma {:induction false} LedgerOfRun(db: Db, u: UserId, id: Ref, ds: seq<Delivery>)
    requires LinkedAccount(db, u, id) && Deliverable(db, u, id, ds)
    ensures RunState(db, u, id, ds)
  {
    if ds != [] {
      var init := ds[..|ds| - 1];
      assert forall x :: x in init ==> x in ds;
      LedgerOfRun(db, u, id, init);
      LedgerStep(db, u, id, ds);
    }
  }

  /** The run seen from the account: each event is absorbed at its first delivery and ignored ever after. */
  function Fold(a: Account, ds: seq<Delivery>, grace: nat): Account {
    if ds == [] then a
    else
      var init, d := ds[..|ds| - 1], ds[|ds| - 1];
      if d.event in EventsOf(init) then Fold(a, init, grace) else Absorb(Fold(a, init, grace), d.event, d.now, grace)
  }

  lemma {:induction false} RunIsFold(db: Db, u: UserId, id: Ref, ds: seq<Delivery>)
    requires LinkedAccount(db, u, id) && Deliverable(db, u, id, ds)
    ensures LinkedAccount(After(db, ds), u, id)
    ensures AccountOf(After(db, ds), u) == Fold(AccountOf(db, u), ds, db.settings.grace)
  {
    LedgerOfRun(db, u, id, ds);
    if ds != [] {
      assert forall x :: x in ds[..|ds| - 1] ==> x in ds;
      LedgerOfRun(db, u, id, ds[..|ds| - 1]);
      LedgerStep(db, u, id, ds);
      RunIsFold(db, u, id, ds[..|ds| - 1]);
    }
  }

  // ---------------------------------------------------------------- every order agrees on the time and the status

  predicate IsMaxKey(k: Key, base: Key, es: set<Event>) {
    && Leq(base, k)
    && (forall e :: e in es ==> Leq(KeyOf(e), k))
    && (k == base || exists e :: e in es && KeyOf(e) == k)
  }

  lemma EventsOfLast(ds: seq<Delivery>)
    requires ds != []
    ensures EventsOf(ds) == EventsOf(ds[..|ds| - 1]) + {ds[|ds| - 1].event}
  {
    assert ds == ds[..|ds| - 1] + [ds[|ds| - 1]];
  }

  /** The row ends at the lexicographic maximum of (occurred_at, status rank) over the events and the initial row. */
  lemma {:induction false} KeyIsMaximum(a: Account, ds: seq<Delivery>, grace: nat)
    ensures IsMaxKey(KeyOfRow(Fold(a, ds, grace).row), KeyOfRow(a.row), EventsOf(ds))
  {
    if ds != [] {
      KeyIsMaximum(a, ds[..|ds| - 1], grace);
      EventsOfLast(ds);
    }
  }

  lemma RunEndsAtMaximum(db: Db, u: UserId, id: Ref, ds: seq<Delivery>)
    requires LinkedAccount(db, u, id) && Deliverable(db, u, id, ds)
    ensures u in After(db, ds).subs
    ensures IsMaxKey(KeyOfRow(After(db, ds).subs[u]), KeyOfRow(db.subs[u]), EventsOf(ds))
  {
    RunIsFold(db, u, id, ds);
    KeyIsMaximum(AccountOf(db, u), ds, db.settings.grace);
  }

  lemma MaxKeyUnique(k: Key, k': Key, base: Key, es: set<Event>)
    requires IsMaxKey(k, base, es) && IsMaxKey(k', base, es)
    ensures k == k' && (k.None? ==> es == {})
  {
    if e :| e in es {
      assert Leq(KeyOf(e), k);
    }
  }

  lemma NoEventsNoDeliveries(ds: seq<Delivery>)
    requires EventsOf(ds) == {}
    ensures ds == []
  {
    assert ds != [] ==> ds[0].event in EventsOf(ds);
  }

  /** Convergence: any two histories that delivered the same events, in any order and any number of times, agree on
      `provider_event_at` and on the status, which are the greatest key among the events and the initial row. */
  lemma TimeAndStatusConverge(db: Db, u: UserId, id: Ref, ds1: seq<Delivery>, ds2: seq<Delivery>)
    requires LinkedAccount(db, u, id) && Deliverable(db, u, id, ds1) && Deliverable(db, u, id, ds2)
    requires EventsOf(ds1) == EventsOf(ds2)
    ensures u in After(db, ds1).subs && u in After(db, ds2).subs
    ensures IsMaxKey(KeyOfRow(After(db, ds1).subs[u]), KeyOfRow(db.subs[u]), EventsOf(ds1))
    ensures After(db, ds1).subs[u].eventAt == After(db, ds2).subs[u].eventAt
    ensures After(db, ds1).subs[u].status == After(db, ds2).subs[u].status
  {
    RunEndsAtMaximum(db, u, id, ds1);
    RunEndsAtMaximum(db, u, id, ds2);
    var row1, row2 := After(db, ds1).subs[u], After(db, ds2).subs[u];
    MaxKeyUnique(KeyOfRow(row1), KeyOfRow(row2), KeyOfRow(db.subs[u]), EventsOf(ds1));
    if EventsOf(ds1) == {} {
      NoEventsNoDeliveries(ds1);
      NoEventsNoDeliveries(ds2);
    }
  }

  // ---------------------------------------------------------------- the period end: exactly when every order agrees

  /** The event is not older than the initial row. */
  predicate Live(e: Event, base: Subscription) {
    Leq(KeyOfRow(base), KeyOf(e))
  }

  /** The event carries the greatest key of all. */
  predicate Top(e: Event, es: set<Event>, base: Subscription) {
    e in es && Live(e, base) && forall x :: x in es ==> Leq(KeyOf(x), KeyOf(e))
  }

  predicate TopsAgreeOn(es: set<Event>, base: Subscription, end: Option<Time>) {
    forall e {:trigger Top(e, es, base)} :: e in es && Top(e, es, base) && e.periodEnd.Some? ==> e.periodEnd == end
  }

  predicate NamesTopEnd(done: set<Event>, es: set<Event>, base: Subscription) {
    exists e {:trigger Top(e, es, base)} :: e in done && Top(e, es, base) && e.periodEnd.Some?
  }

  predicate TopEndsEqual(es: set<Event>, base: Subscription) {
    forall e, x {:trigger Top(e, es, base), Top(x, es, base)} ::
      e in es && x in es && Top(e, es, base) && Top(x, es, base) && e.periodEnd.Some? && x.periodEnd.Some? ==>
        e.periodEnd == x.periodEnd
  }

  predicate LiveEndsAre(es: set<Event>, base: Subscription, end: Option<Time>) {
    forall e :: e in es && Live(e, base) && e.periodEnd.Some? ==> e.periodEnd == end
  }

  /** The top events name one period end; or they name none, and then no event that may be applied before them
      names a period end other than the one on file. */
  predicate EndSettled(es: set<Event>, base: Subscription) {
    if NamesTopEnd(es, es, base) then TopEndsEqual(es, base) else LiveEndsAre(es, base, base.periodEnd)
  }

  lemma LastIsAbsorbed(a: Account, ds: seq<Delivery>, es: set<Event>, grace: nat)
    requires ds != [] && EventsOf(ds) <= es && ds[|ds| - 1].event !in EventsOf(ds[..|ds| - 1])
    requires Top(ds[|ds| - 1].event, es, a.row)
    ensures Fold(a, ds, grace).row ==
              Overwrite(Some(Fold(a, ds[..|ds| - 1], grace).row), ds[|ds| - 1].event, StatusOf(ds[|ds| - 1].event))
  {
    KeyIsMaximum(a, ds[..|ds| - 1], grace);
    EventsOfLast(ds);
  }

  /** If the top events agree on `end`, then the row holds `end` from the first top event that names it. */
  lemma {:induction false} TopEndHolds(a: Account, ds: seq<Delivery>, es: set<Event>, end: Option<Time>, grace: nat)
    requires EventsOf(ds) <= es && TopsAgreeOn(es, a.row, end) && NamesTopEnd(EventsOf(ds), es, a.row)
    ensures Fold(a, ds, grace).row.periodEnd == end
  {
    assert ds != [];
    var init, e := ds[..|ds| - 1], ds[|ds| - 1].event;
    EventsOfLast(ds);
    if NamesTopEnd(EventsOf(init), es, a.row) {
      TopEndHolds(a, init, es, end, grace);
      KeyIsMaximum(a, init, grace);
      if Leq(KeyOfRow(Fold(a, init, grace).row), KeyOf(e)) {
        assert Top(e, es, a.row);
      }
    } else {
      LastIsAbsorbed(a, ds, es, grace);
    }
  }

  /** If no event that may be applied names another period end, the one on file stays. */
  lemma {:induction false} EndUntouched(a: Account, ds: seq<Delivery>, grace: nat)
    requires LiveEndsAre(EventsOf(ds), a.row, a.row.periodEnd)
    ensures Fold(a, ds, grace).row.periodEnd == a.row.periodEnd
  {
    if ds != [] {
      EventsOfLast(ds);
      EndUntouched(a, ds[..|ds| - 1], grace);
      KeyIsMaximum(a, ds[..|ds| - 1], grace);
    }
  }

  lemma SettledEndConverges(a: Account, ds1: seq<Delivery>, ds2: seq<Delivery>, grace: nat)
    requires EventsOf(ds1) == EventsOf(ds2) && EndSettled(EventsOf(ds1), a.row)
    ensures Fold(a, ds1, grace).row.periodEnd == Fold(a, ds2, grace).row.periodEnd
  {
    var es := EventsOf(ds1);
    if NamesTopEnd(es, es, a.row) {
      var t :| t in es && Top(t, es, a.row) && t.periodEnd.Some?;
      TopEndHolds(a, ds1, es, t.periodEnd, grace);
      TopEndHolds(a, ds2, es, t.periodEnd, grace);
    } else {
      EndUntouched(a, ds1, grace);
      EndUntouched(a, ds2, grace);
    }
  }

  /** Deliveries of every event but `x` and `y`. */
  function Without(ds: seq<Delivery>, x: Event, y: Event): (r: seq<Delivery>)
    ensures forall d :: d in r <==> d in ds && d.event != x && d.event != y
  {
    if ds == [] then []
    else
      var rest := Without(ds[..|ds| - 1], x, y);
      var d := ds[|ds| - 1];
      assert ds == ds[..|ds| - 1] + [d];
      if d.event == x || d.event == y then rest else rest + [d]
  }

  /** An order of the same events in which `y` comes last, right after `x`. */
  function Ending(ds: seq<Delivery>, x: Delivery, y: Delivery): (order: seq<Delivery>)
    requires x in ds && y in ds && x.event != y.event
    ensures forall d :: d in order ==> d in ds
    ensures EventsOf(order) == EventsOf(ds)
    ensures order != [] && order[|order| - 1] == y && y.event !in EventsOf(order[..|order| - 1])
  {
    var rest := Without(ds, x.event, y.event);
    var order := rest + [x, y];
    assert order[..|order| - 1] == rest + [x];
    assert x in order && y in order;
    assert forall d :: d in ds ==> d.event == x.event || d.event == y.event || d in order;
    assert forall e :: e in EventsOf(ds) ==> e in EventsOf(order);
    order
  }

  /** With the greatest key on the row and top events that name no end, the end on the row is final. */
  lemma {:induction false} EndStaysAtTop(a: Account, start: seq<Delivery>, ds: seq<Delivery>, es: set<Event>,
                                         grace: nat)
    requires EventsOf(start + ds) <= es && !NamesTopEnd(es, es, a.row)
    requires exists e :: e in es && Top(e, es, a.row) && KeyOf(e) == KeyOfRow(Fold(a, start, grace).row)
    ensures Fold(a, start + ds, grace).row.periodEnd == Fold(a, start, grace).row.periodEnd
    ensures KeyOfRow(Fold(a, start + ds, grace).row) == KeyOfRow(Fold(a, start, grace).row)
  {
    if ds == [] {
      assert start + ds == start;
    } else {
      var init, e := ds[..|ds| - 1], ds[|ds| - 1].event;
      assert (start + ds)[..|start + ds| - 1] == start + init;
      EventsOfLast(start + ds);
      EndStaysAtTop(a, start, init, es, grace);
      if Leq(KeyOfRow(Fold(a, start + init, grace).row), KeyOf(e)) {
        assert Top(e, es, a.row);
      }
    }
  }

  /** Two top events that name different ends: the later delivery decides. */
  lemma LastTopDecides(a: Account, ds: seq<Delivery>, x: Delivery, y: Delivery, grace: nat)
    requires x in ds && y in ds && x.event != y.event
    requires Top(y.event, EventsOf(ds), a.row) && y.event.periodEnd.Some?
    ensures Fold(a, Ending(ds, x, y), grace).row.periodEnd == y.event.periodEnd
  {
    LastIsAbsorbed(a, Ending(ds, x, y), EventsOf(ds), grace);
  }

  /** A live event that names another end: it counts if it comes before the top event, and not if it comes after. */
  lemma LowerEventMatters(a: Account, ds: seq<Delivery>, x: Delivery, top: Delivery, grace: nat)
    requires x in ds && top in ds && Live(x.event, a.row) && x.event.periodEnd.Some?
    requires Top(top.event, EventsOf(ds), a.row) && !NamesTopEnd(EventsOf(ds), EventsOf(ds), a.row)
    ensures EventsOf([top] + ds) == EventsOf([x, top] + ds) == EventsOf(ds)
    ensures Fold(a, [top] + ds, grace).row.periodEnd == a.row.periodEnd
    ensures Fold(a, [x, top] + ds, grace).row.periodEnd == x.event.periodEnd
  {
    var es := EventsOf(ds);
    assert forall e :: e in es ==> e in EventsOf([top] + ds) && e in EventsOf([x, top] + ds) by {
      assert forall d :: d in ds ==> d in [top] + ds && d in [x, top] + ds;
    }
    assert EventsOf([top] + ds) == es && EventsOf([x, top] + ds) == es;
    assert x.event in es && top.event in es;
    OneDelivery(a, top, grace);
    EndStaysAtTop(a, [top], ds, es, grace);
    OneDelivery(a, x, grace);
    TwoDeliveries(a, x, top, es, grace);
    EndStaysAtTop(a, [x, top], ds, es, grace);
  }

  lemma TwoDeliveries(a: Account, x: Delivery, top: Delivery, es: set<Event>, grace: nat)
    requires x.event != top.event && x.event in es && Live(x.event, a.row) && x.event.periodEnd.Some?
    requires Top(top.event, es, a.row) && top.event.periodEnd.None?
    ensures Fold(a, [x, top], grace).row.periodEnd == x.event.periodEnd
    ensures KeyOfRow(Fold(a, [x, top], grace).row) == KeyOf(top.event)
  {
    assert [x, top][..1] == [x];
    OneDelivery(a, x, grace);
    EventsOfLast([x, top]);
    LastIsAbsorbed(a, [x, top], es, grace);
  }

  lemma DeliveryOf(ds: seq<Delivery>, e: Event) returns (d: Delivery)
    requires e in EventsOf(ds)
    ensures d in ds && d.event == e
  {
    d :| d in ds && d.event == e;
  }

  lemma DisagreeingTops(es: set<Event>, base: Subscription) returns (x: Event, y: Event)
    requires NamesTopEnd(es, es, base) && !EndSettled(es, base)
    ensures x in es && y in es && Top(x, es, base) && Top(y, es, base)
    ensures x.periodEnd.Some? && y.periodEnd.Some? && x.periodEnd != y.periodEnd
  {
    x, y :| x in es && y in es && Top(x, es, base) && Top(y, es, base)
            && x.periodEnd.Some? && y.periodEnd.Some? && x.periodEnd != y.periodEnd;
  }

  /** If the end is not settled, two orders of the same deliveries disagree on it. */
  lemma UnsettledEndDiverges(a: Account, ds: seq<Delivery>, grace: nat) returns (ds1: seq<Delivery>, ds2: seq<Delivery>)
    requires !EndSettled(EventsOf(ds), a.row)
    ensures (forall d :: d in ds1 || d in ds2 ==> d in ds) && EventsOf(ds1) == EventsOf(ds) == EventsOf(ds2)
    ensures Fold(a, ds1, grace).row.periodEnd != Fold(a, ds2, grace).row.periodEnd
  {
    if NamesTopEnd(EventsOf(ds), EventsOf(ds), a.row) {
      var x, y := DisagreeingTops(EventsOf(ds), a.row);
      var dx := DeliveryOf(ds, x);
      var dy := DeliveryOf(ds, y);
      ds1, ds2 := Ending(ds, dx, dy), Ending(ds, dy, dx);
      LastTopDecides(a, ds, dx, dy, grace);
      LastTopDecides(a, ds, dy, dx, grace);
    } else {
      ds1, ds2 := UnsettledBelowTop(a, ds, grace);
    }
  }

  lemma UnsettledBelowTop(a: Account, ds: seq<Delivery>, grace: nat) returns (ds1: seq<Delivery>, ds2: seq<Delivery>)
    requires !NamesTopEnd(EventsOf(ds), EventsOf(ds), a.row) && !LiveEndsAre(EventsOf(ds), a.row, a.row.periodEnd)
    ensures (forall d :: d in ds1 || d in ds2 ==> d in ds) && EventsOf(ds1) == EventsOf(ds) == EventsOf(ds2)
    ensures Fold(a, ds1, grace).row.periodEnd != Fold(a, ds2, grace).row.periodEnd
  {
    var x :| x in EventsOf(ds) && Live(x, a.row) && x.periodEnd.Some? && x.periodEnd != a.row.periodEnd;
    var dx := DeliveryOf(ds, x);
    var dt := TopDelivery(a, ds, dx, grace);
    ds1, ds2 := [dt] + ds, [dx, dt] + ds;
    LowerEventMatters(a, ds, dx, dt, grace);
  }

  lemma OneDelivery(a: Account, d: Delivery, grace: nat)
    ensures Fold(a, [d], grace) == Absorb(a, d.event, d.now, grace)
    ensures EventsOf([d]) == {d.event}
  {
    assert [d][..0] == [];
    assert EventsOf([]) == {};
    assert d in [d];
  }

  /** Among deliveries one of which is live there is one of a top event. */
  lemma TopDelivery(a: Account, ds: seq<Delivery>, live: Delivery, grace: nat) returns (top: Delivery)
    requires live in ds && Live(live.event, a.row)
    ensures top in ds && Top(top.event, EventsOf(ds), a.row)
  {
    KeyIsMaximum(a, ds, grace);
    var k := KeyOfRow(Fold(a, ds, grace).row);
    if k == KeyOfRow(a.row) {
      assert live.event in EventsOf(ds);
      top := live;
    } else {
      var e :| e in EventsOf(ds) && KeyOf(e) == k;
      top :| top in ds && top.event == e;
    }
  }

  ghost predicate AllOrdersAgreeOnEnd(db: Db, u: UserId, id: Ref, es: set<Event>) {
    forall ds1, ds2 ::
      Deliverable(db, u, id, ds1) && Deliverable(db, u, id, ds2) && EventsOf(ds1) == es && EventsOf(ds2) == es ==>
        u in After(db, ds1).subs && u in After(db, ds2).subs
        && After(db, ds1).subs[u].periodEnd == After(db, ds2).subs[u].periodEnd
  }

  /** Absent period ends leave the stored one untouched, so order may matter. Every order of a set of events agrees on
      the period end if and only if EndSettled holds of the set. */
  lemma EndConvergesExactlyWhenSettled(db: Db, u: UserId, id: Ref, ds: seq<Delivery>)
    requires LinkedAccount(db, u, id) && Deliverable(db, u, id, ds)
    ensures AllOrdersAgreeOnEnd(db, u, id, EventsOf(ds)) <==> EndSettled(EventsOf(ds), db.subs[u])
  {
    var a, grace := AccountOf(db, u), db.settings.grace;
    if EndSettled(EventsOf(ds), db.subs[u]) {
      forall ds1, ds2 | Deliverable(db, u, id, ds1) && Deliverable(db, u, id, ds2)
                        && EventsOf(ds1) == EventsOf(ds) && EventsOf(ds2) == EventsOf(ds)
        ensures u in After(db, ds1).subs && u in After(db, ds2).subs
        ensures After(db, ds1).subs[u].periodEnd == After(db, ds2).subs[u].periodEnd
      {
        RunIsFold(db, u, id, ds1);
        RunIsFold(db, u, id, ds2);
        SettledEndConverges(a, ds1, ds2, grace);
      }
    } else {
      var ds1, ds2 := UnsettledEndDiverges(a, ds, grace);
      assert Deliverable(db, u, id, ds1) && Deliverable(db, u, id, ds2);
      RunIsFold(db, u, id, ds1);
      RunIsFold(db, u, id, ds2);
    }
  }

  // ---------------------------------------------------------------- the cached plan

  predicate AllAt(ds: seq<Delivery>, now: Time) {
    forall d :: d in ds ==> d.now == now
  }

  /** The plan is the initial one as long as only dead events came in, and the entitlement of the row afterwards. */
  lemma {:induction false} PlanOfFold(a: Account, ds: seq<Delivery>, now: Time, grace: nat)
    requires AllAt(ds, now)
    ensures var b := Fold(a, ds, grace);
            if exists e :: e in EventsOf(ds) && Live(e, a.row) then
              b.plan == EntitledPlan(Pro, b.row.status, b.row.periodEnd, now, grace)
            else b == a
  {
    if ds != [] {
      var init, d := ds[..|ds| - 1], ds[|ds| - 1];
      EventsOfLast(ds);
      assert d in ds && forall x :: x in init ==> x in ds;
      PlanOfFold(a, init, now, grace);
      KeyIsMaximum(a, init, grace);
    }
  }

  /** The period ends some order of the events may leave on the row: those the top events name; if they name none, the
      one on file and every one named by an event that may be applied. */
  predicate PossibleEnd(es: set<Event>, base: Subscription, end: Option<Time>) {
    if NamesTopEnd(es, es, base) then exists e :: e in es && Top(e, es, base) && e.periodEnd.Some? && e.periodEnd == end
    else end == base.periodEnd || exists e :: e in es && Live(e, base) && e.periodEnd.Some? && e.periodEnd == end
  }

  /** At the status of the top events, every possible end entitles the same plan at `now`. */
  ghost predicate PlanSettled(es: set<Event>, base: Subscription, now: Time, grace: nat) {
    forall t, x, y {:trigger Top(t, es, base), PossibleEnd(es, base, x), PossibleEnd(es, base, y)} ::
      t in es && Top(t, es, base) && PossibleEnd(es, base, x) && PossibleEnd(es, base, y) ==>
        EntitledPlan(Pro, StatusOf(t), x, now, grace) == EntitledPlan(Pro, StatusOf(t), y, now, grace)
  }

  /** Without a top event that names an end, the row ends with the one on file or one a live event names. */
  lemma {:induction false} EndIsNamed(a: Account, ds: seq<Delivery>, grace: nat)
    ensures var end := Fold(a, ds, grace).row.periodEnd;
            || end == a.row.periodEnd
            || exists e :: e in EventsOf(ds) && Live(e, a.row) && e.periodEnd.Some? && e.periodEnd == end
  {
    if ds != [] {
      EventsOfLast(ds);
      EndIsNamed(a, ds[..|ds| - 1], grace);
      KeyIsMaximum(a, ds[..|ds| - 1], grace);
    }
  }

  /** Once a top event has named an end, the row holds one that a top event named. */
  lemma {:induction false} EndIsNamedByTop(a: Account, ds: seq<Delivery>, es: set<Event>, grace: nat)
    requires EventsOf(ds) <= es && NamesTopEnd(EventsOf(ds), es, a.row)
    ensures var end := Fold(a, ds, grace).row.periodEnd;
            exists e :: e in EventsOf(ds) && Top(e, es, a.row) && e.periodEnd.Some? && e.periodEnd == end
  {
    assert ds != [];
    var init, e := ds[..|ds| - 1], ds[|ds| - 1].event;
    EventsOfLast(ds);
    if NamesTopEnd(EventsOf(init), es, a.row) {
      EndIsNamedByTop(a, init, es, grace);
      KeyIsMaximum(a, init, grace);
      if Leq(KeyOfRow(Fold(a, init, grace).row), KeyOf(e)) {
        assert Top(e, es, a.row);
      }
    } else {
      LastIsAbsorbed(a, ds, es, grace);
    }
  }

  lemma FinalEndIsPossible(a: Account, ds: seq<Delivery>, grace: nat)
    ensures PossibleEnd(EventsOf(ds), a.row, Fold(a, ds, grace).row.periodEnd)
  {
    if NamesTopEnd(EventsOf(ds), EventsOf(ds), a.row) {
      EndIsNamedByTop(a, ds, EventsOf(ds), grace);
    } else {
      EndIsNamed(a, ds, grace);
    }
  }

  /** The final status is that of any top event. */
  lemma FinalStatusIsTop(a: Account, ds: seq<Delivery>, t: Event, grace: nat)
    requires t in EventsOf(ds) && Top(t, EventsOf(ds), a.row)
    ensures Fold(a, ds, grace).row.status == StatusOf(t)
  {
    KeyIsMaximum(a, ds, grace);
  }

  /** Every possible end is the final one in some order of the same deliveries, if two are possible. */
  lemma OrderEndingIn(a: Account, ds: seq<Delivery>, t: Event, x: Option<Time>, y: Option<Time>, grace: nat)
    returns (order: seq<Delivery>)
    requires t in EventsOf(ds) && Top(t, EventsOf(ds), a.row) && x != y
    requires PossibleEnd(EventsOf(ds), a.row, x) && PossibleEnd(EventsOf(ds), a.row, y)
    ensures (forall d :: d in order ==> d in ds) && EventsOf(order) == EventsOf(ds)
    ensures Fold(a, order, grace).row.periodEnd == y
  {
    var es := EventsOf(ds);
    if NamesTopEnd(es, es, a.row) {
      var ex :| ex in es && Top(ex, es, a.row) && ex.periodEnd.Some? && ex.periodEnd == x;
      var ey :| ey in es && Top(ey, es, a.row) && ey.periodEnd.Some? && ey.periodEnd == y;
      var dx := DeliveryOf(ds, ex);
      var dy := DeliveryOf(ds, ey);
      LastTopDecides(a, ds, dx, dy, grace);
      order := Ending(ds, dx, dy);
    } else {
      var named := if y == a.row.periodEnd then x else y;
      var e :| e in es && Live(e, a.row) && e.periodEnd.Some? && e.periodEnd == named;
      var d := DeliveryOf(ds, e);
      var dt := DeliveryOf(ds, t);
      LowerEventMatters(a, ds, d, dt, grace);
      order := if y == a.row.periodEnd then [dt] + ds else [d, dt] + ds;
    }
  }

  /** The final plan is the entitlement of the top status and the final end. */
  lemma FinalPlan(a: Account, ds: seq<Delivery>, t: Event, now: Time, grace: nat)
    requires t in EventsOf(ds) && Top(t, EventsOf(ds), a.row) && AllAt(ds, now)
    ensures Fold(a, ds, grace).plan == EntitledPlan(Pro, StatusOf(t), Fold(a, ds, grace).row.periodEnd, now, grace)
  {
    PlanOfFold(a, ds, now, grace);
    FinalStatusIsTop(a, ds, t, grace);
  }

  lemma SettledPlanConverges(a: Account, ds1: seq<Delivery>, ds2: seq<Delivery>, now: Time, grace: nat)
    requires EventsOf(ds1) == EventsOf(ds2) && AllAt(ds1, now) && AllAt(ds2, now)
    requires PlanSettled(EventsOf(ds1), a.row, now, grace)
    ensures Fold(a, ds1, grace).plan == Fold(a, ds2, grace).plan
  {
    if e :| e in EventsOf(ds1) && Live(e, a.row) {
      var d := DeliveryOf(ds1, e);
      var top := TopDelivery(a, ds1, d, grace);
      assert top.event in EventsOf(ds1);
      FinalPlan(a, ds1, top.event, now, grace);
      FinalPlan(a, ds2, top.event, now, grace);
      FinalEndIsPossible(a, ds1, grace);
      FinalEndIsPossible(a, ds2, grace);
    } else {
      OnlyDead(a, ds1, grace);
      OnlyDead(a, ds2, grace);
    }
  }

  lemma UnsettledPlanDiverges(a: Account, ds: seq<Delivery>, now: Time, grace: nat)
    returns (ds1: seq<Delivery>, ds2: seq<Delivery>)
    requires AllAt(ds, now) && !PlanSettled(EventsOf(ds), a.row, now, grace)
    ensures (forall d :: d in ds1 || d in ds2 ==> d in ds) && EventsOf(ds1) == EventsOf(ds) == EventsOf(ds2)
    ensures Fold(a, ds1, grace).plan != Fold(a, ds2, grace).plan
  {
    var es := EventsOf(ds);
    var t, x, y :| t in es && Top(t, es, a.row) && PossibleEnd(es, a.row, x) && PossibleEnd(es, a.row, y)
                   && EntitledPlan(Pro, StatusOf(t), x, now, grace) != EntitledPlan(Pro, StatusOf(t), y, now, grace);
    ds1 := OrderEndingIn(a, ds, t, y, x, grace);
    ds2 := OrderEndingIn(a, ds, t, x, y, grace);
    FinalPlan(a, ds1, t, now, grace);
    FinalPlan(a, ds2, t, now, grace);
  }

  ghost predicate AllOrdersAgreeOnPlan(db: Db, u: UserId, id: Ref, es: set<Event>, now: Time) {
    forall ds1, ds2 ::
      && Deliverable(db, u, id, ds1) && Deliverable(db, u, id, ds2) && EventsOf(ds1) == es && EventsOf(ds2) == es
      && AllAt(ds1, now) && AllAt(ds2, now) ==>
        u in After(db, ds1).users && u in After(db, ds2).users && After(db, ds1).users[u] == After(db, ds2).users[u]
  }

  /** Every order of a set of events handled at `now` agrees on the cached plan if and only if the possible period ends
      all entitle the same plan. */
  lemma PlanConvergesExactlyWhenSettled(db: Db, u: UserId, id: Ref, ds: seq<Delivery>, now: Time)
    requires LinkedAccount(db, u, id) && Deliverable(db, u, id, ds) && AllAt(ds, now)
    ensures AllOrdersAgreeOnPlan(db, u, id, EventsOf(ds), now) <==>
              PlanSettled(EventsOf(ds), db.subs[u], now, db.settings.grace)
  {
    var a, grace := AccountOf(db, u), db.settings.grace;
    if PlanSettled(EventsOf(ds), db.subs[u], now, grace) {
      forall ds1, ds2 | Deliverable(db, u, id, ds1) && Deliverable(db, u, id, ds2) && EventsOf(ds1) == EventsOf(ds)
                        && EventsOf(ds2) == EventsOf(ds) && AllAt(ds1, now) && AllAt(ds2, now)
        ensures u in After(db, ds1).users && u in After(db, ds2).users
        ensures After(db, ds1).users[u] == After(db, ds2).users[u]
      {
        RunIsFold(db, u, id, ds1);
        RunIsFold(db, u, id, ds2);
        SettledPlanConverges(a, ds1, ds2, now, grace);
      }
    } else {
      var ds1, ds2 := UnsettledPlanDiverges(a, ds, now, grace);
      assert Deliverable(db, u, id, ds1) && Deliverable(db, u, id, ds2);
      RunIsFold(db, u, id, ds1);
      RunIsFold(db, u, id, ds2);
    }
  }

  /** A settled period end is one way for the plan to be settled, and not the only one. */
  lemma EndSettledIsPlanSettled(es: set<Event>, base: Subscription, now: Time, grace: nat)
    requires EndSettled(es, base)
    ensures PlanSettled(es, base, now, grace)
  {
    if NamesTopEnd(es, es, base) {
      assert forall x, y {:trigger PossibleEnd(es, base, x), PossibleEnd(es, base, y)} ::
        PossibleEnd(es, base, x) && PossibleEnd(es, base, y) ==> x == y;
    } else {
      assert forall x {:trigger PossibleEnd(es, base, x)} :: PossibleEnd(es, base, x) ==> x == base.periodEnd;
    }
  }

  /** So are top events whose status entitles nothing, whatever ends are named. */
  lemma ClosedTopIsPlanSettled(es: set<Event>, base: Subscription, now: Time, grace: nat)
    requires forall t {:trigger Top(t, es, base)} :: t in es && Top(t, es, base) ==> StatusOf(t) in {Inactive, Canceled}
    ensures PlanSettled(es, base, now, grace)
  {
  }

  /** At a fixed `now` the cached plan converges too, whenever the period end does. */
  lemma PlanConverges(db: Db, u: UserId, id: Ref, ds1: seq<Delivery>, ds2: seq<Delivery>, now: Time)
    requires LinkedAccount(db, u, id) && Deliverable(db, u, id, ds1) && Deliverable(db, u, id, ds2)
    requires EventsOf(ds1) == EventsOf(ds2) && EndSettled(EventsOf(ds1), db.subs[u])
    requires AllAt(ds1, now) && AllAt(ds2, now)
    ensures u in After(db, ds1).users && u in After(db, ds2).users
    ensures After(db, ds1).users[u] == After(db, ds2).users[u]
  {
    EndSettledIsPlanSettled(EventsOf(ds1), db.subs[u], now, db.settings.grace);
    PlanConvergesExactlyWhenSettled(db, u, id, ds1, now);
  }

  // ---------------------------------------------------------------- the more restrictive state wins

  /** A row whose status entitles nothing comes with the free plan once an event has been applied. */
  lemma {:induction false} ClosedRowIsFree(a: Account, ds: seq<Delivery>, grace: nat)
    requires exists e :: e in EventsOf(ds) && Live(e, a.row)
    ensures var b := Fold(a, ds, grace); b.row.status in {Inactive, Canceled} ==> b.plan == Free
  {
    assert ds != [];
    var init := ds[..|ds| - 1];
    EventsOfLast(ds);
    KeyIsMaximum(a, init, grace);
    if exists e :: e in EventsOf(init) && Live(e, a.row) {
      ClosedRowIsFree(a, init, grace);
    } else {
      OnlyDead(a, init, grace);
    }
  }

  lemma {:induction false} OnlyDead(a: Account, ds: seq<Delivery>, grace: nat)
    requires forall e :: e in EventsOf(ds) ==> !Live(e, a.row)
    ensures Fold(a, ds, grace) == a
  {
    if ds != [] {
      EventsOfLast(ds);
      OnlyDead(a, ds[..|ds| - 1], grace);
    }
  }

  /** If one of the latest events is a cancellation then, in whatever order and how often the events arrive, the account
      ends canceled and on the free plan. */
  lemma LatestCancellationWins(db: Db, u: UserId, id: Ref, ds: seq<Delivery>, c: Event)
    requires LinkedAccount(db, u, id) && Deliverable(db, u, id, ds)
    requires c in EventsOf(ds) && c.status == Word(Canceled)
    requires forall e :: e in EventsOf(ds) ==> e.occurredAt <= c.occurredAt
    requires db.subs[u].eventAt.Some? ==> db.subs[u].eventAt.value <= c.occurredAt
    ensures u in After(db, ds).subs && u in After(db, ds).users
    ensures After(db, ds).subs[u].status == Canceled && After(db, ds).subs[u].eventAt == Some(c.occurredAt)
    ensures After(db, ds).users[u] == Free
  {
    RunEndsAtMaximum(db, u, id, ds);
    RunIsFold(db, u, id, ds);
    assert Live(c, db.subs[u]);
    ClosedRowIsFree(AccountOf(db, u), ds, db.settings.grace);
  }
}
