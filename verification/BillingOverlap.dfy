/** A run of the webhook engine in which two workers overlap: both decide on an event of one account before either has
    written, and the older event is written over the newer one. */
module BillingOverlap {
  import opened Prelude
  import opened Billing
  import opened BillingRuns
  import opened BillingOrder

  /** An event at `at` about subscription 7, bought with checkout 1. */
  function Notice(at: nat, status: Status): Event {
    Event(0, at, SubscriptionUpdated, at, Named(Pro), Word(status), Some(1), None, Some(7), None, Some(100), false,
          None, None, None)
  }

  /** Account 0 alone, with checkout 1 and the given row. */
  ghost predicate Alone(db: Db, row: Option<Subscription>) {
    && db.settings == Settings(0, 0)
    && db.users.Keys == {0}
    && db.subs == (if row.Some? then map[0 := row.value] else map[])
    && (row.Some? ==> row.value.subscription == Some(7))
    && db.checkouts.Keys == {1} && db.checkouts[1].owner == 0 && db.checkouts[1].provider == 0
  }

  lemma NoticeResolves(db: Db, row: Option<Subscription>, at: nat, status: Status)
    requires Alone(db, row)
    ensures Resolve(db, Notice(at, status), 0) == Found(Some(0), Some(1))
    ensures !OwnedByAnother(db, Notice(at, status), 0)
    ensures ValidPick(db, Notice(at, status), 0)
  {
    if row.Some? {
      assert Holds(db, 0, 7);
    }
  }

  lemma NoticeIsChecked(db: Db, row: Subscription, at: nat, status: Status)
    requires Alone(db, Some(row)) && row.eventAt.Some? && row.eventAt.value < at
    ensures ValidPick(db, Notice(at, status), 0)
    ensures var check := CheckEvent(db, Notice(at, status), 20, 0);
            check.Some? && DecidedOn(check.value, Notice(at, status), row)
  {
    NoticeResolves(db, Some(row), at, status);
  }

  lemma NoticeIsWritten(db: Db, check: Check, row: Subscription, at: nat, status: Status)
    requires Alone(db, Some(row)) && EventKey(check.event) in db.ledger && check.event == Notice(at, status)
    requires check.account == 0 && check.now == 20 && check.seen.Some? && check.completes.Or(Some(1)) == Some(1)
    ensures Writable(db, check)
    ensures Alone(WriteChecked(db, check), Some(WrittenRow(Some(row), check)))
    ensures WriteChecked(db, check).users[0] == (if status in {Active, PastDue} then Pro else Free)
    ensures WriteChecked(db, check).ledger.Keys == db.ledger.Keys
  {
    assert forall v, id :: Holds(db, v, id) ==> v == 0;
  }

  const DECIDE_ACTIVE := CheckStep(1, Notice(11, Active), 20, 0)
  const DECIDE_CANCELED := CheckStep(2, Notice(12, Canceled), 20, 0)

  predicate BothClaimed(db: Db) {
    EventKey(Notice(11, Active)) in db.ledger && EventKey(Notice(12, Canceled)) in db.ledger
  }

  predicate DecidedOn(check: Check, e: Event, row: Subscription) {
    && check.event == e && check.now == 20 && check.account == 0 && check.seen == Some(row)
    && check.completes.Or(Some(1)) == Some(1)
  }

  lemma Extend(worlds: seq<World>, steps: seq<Step>, step: Step, w: World)
    returns (worlds': seq<World>, steps': seq<Step>)
    requires Run(worlds, steps) && Follows(worlds[|steps|], step, w)
    ensures worlds' == worlds + [w] && steps' == steps + [step] && Run(worlds', steps')
  {
    worlds', steps' := worlds + [w], steps + [step];
  }

  function Empty(): World {
    World(Db(Settings(0, 0), map[0 := Free], map[], map[], map[], map[]), 0, map[])
  }

  /** Three steps that change no more than the ledger. */
  lemma Claims(w: World, first: Status) returns (w1: World, w2: World, w3: World)
    requires Alone(w.db, None) && w.db.ledger == map[] && w.checks == map[]
    ensures Follows(w, ClaimStep(Notice(10, first), 10), w1)
    ensures Follows(w1, ClaimStep(Notice(11, Active), 10), w2)
    ensures Follows(w2, ClaimStep(Notice(12, Canceled), 10), w3)
    ensures Alone(w3.db, None) && BothClaimed(w3.db) && EventKey(Notice(10, first)) in w3.db.ledger
    ensures w3.checks == map[]
  {
    w1 := Next(w, ClaimStep(Notice(10, first), 10));
    w2 := Next(w1, ClaimStep(Notice(11, Active), 10));
    w3 := Next(w2, ClaimStep(Notice(12, Canceled), 10));
  }

  lemma Purchase(w: World, first: Status) returns (w': World)
    requires Alone(w.db, None) && EventKey(Notice(10, first)) in w.db.ledger && BothClaimed(w.db)
    ensures Follows(w, FinishStep(Notice(10, first), 10, 0), w')
    ensures Alone(w'.db, Some(Overwrite(None, Notice(10, first), first))) && BothClaimed(w'.db) && w'.checks == w.checks
  {
    NoticeResolves(w.db, None, 10, first);
    w' := Next(w, FinishStep(Notice(10, first), 10, 0));
  }

  /** A checkout, and claims of all three events. */
  lemma Opening(first: Status) returns (worlds: seq<World>, steps: seq<Step>)
    ensures |steps| == 4 && Run(worlds, steps) && Initial(worlds[0])
    ensures Alone(worlds[4].db, None) && BothClaimed(worlds[4].db) && worlds[4].checks == map[]
    ensures EventKey(Notice(10, first)) in worlds[4].db.ledger
  {
    var w1 := Next(Empty(), CheckoutStep(0, 1, 0, 100, None));
    var w2, w3, w4 := Claims(w1, first);
    worlds, steps := [Empty()], [];
    worlds, steps := Extend(worlds, steps, CheckoutStep(0, 1, 0, 100, None), w1);
    worlds, steps := Extend(worlds, steps, ClaimStep(Notice(10, first), 10), w2);
    worlds, steps := Extend(worlds, steps, ClaimStep(Notice(11, Active), 10), w3);
    worlds, steps := Extend(worlds, steps, ClaimStep(Notice(12, Canceled), 10), w4);
  }

  /** What the two writes leave: the cancellation applied, then the older event over it. */
  lemma WrittenOver(first: Status, row: Subscription, c1: Check, c2: Check)
    requires first in {Active, PastDue} && row == Overwrite(None, Notice(10, first), first)
    requires c1.event == Notice(11, Active) && c2.event == Notice(12, Canceled) && c1.seen == c2.seen == Some(row)
    ensures var row2 := WrittenRow(Some(row), c2);
            var row1 := WrittenRow(Some(row2), c1);
            && row2.status == Canceled && row2.eventAt == Some(12)
            && row1.status == (if first == Active then Canceled else Active) && row1.eventAt == Some(11)
  {
  }

  /** Two workers decide on two events before either has written. */
  lemma BothDecided(w: World, row: Subscription) returns (w1: World, w2: World)
    requires Alone(w.db, Some(row)) && w.checks == map[] && row.eventAt == Some(10) && BothClaimed(w.db)
    ensures Follows(w, DECIDE_ACTIVE, w1)
    ensures Follows(w1, DECIDE_CANCELED, w2)
    ensures w2.db == w.db && w2.checks.Keys == {1, 2}
    ensures DecidedOn(w2.checks[1], Notice(11, Active), row) && DecidedOn(w2.checks[2], Notice(12, Canceled), row)
  {
    NoticeIsChecked(w.db, row, 11, Active);
    w1 := Next(w, DECIDE_ACTIVE);
    NoticeIsChecked(w.db, row, 12, Canceled);
    w2 := Next(w1, DECIDE_CANCELED);
  }

  /** They write, the newer event first. */
  lemma BothWritten(w: World, first: Status, row: Subscription) returns (w1: World, w2: World)
    requires Alone(w.db, Some(row)) && w.checks.Keys == {1, 2} && BothClaimed(w.db)
    requires first in {Active, PastDue} && row == Overwrite(None, Notice(10, first), first)
    requires DecidedOn(w.checks[1], Notice(11, Active), row) && DecidedOn(w.checks[2], Notice(12, Canceled), row)
    ensures Follows(w, WriteStep(2), w1)
    ensures Follows(w1, WriteStep(1), w2)
    ensures CanceledThenPaid(w1.db, w2.db, first)
  {
    NoticeIsWritten(w.db, w.checks[2], row, 12, Canceled);
    w1 := Next(w, WriteStep(2));
    NoticeIsWritten(w1.db, w.checks[1], WrittenRow(Some(row), w.checks[2]), 11, Active);
    w2 := Next(w1, WriteStep(1));
    WrittenOver(first, row, w.checks[1], w.checks[2]);
  }

  /** First the cancellation is in force, then the account has the paid plan again at the time of an older event: with
      an active row, or even with the canceled one if the status seen at the decision was active already. */
  predicate CanceledThenPaid(db: Db, db': Db, first: Status) {
    && 0 in db.subs && 0 in db.users && 0 in db'.subs && 0 in db'.users
    && db.subs[0].status == Canceled && db.users[0] == Free && EventAt(db, 0) == Some(12)
    && db'.subs[0].status == (if first == Active then Canceled else Active) && db'.users[0] == Pro
    && EventAt(db', 0) == Some(11)
  }

  /** The run up to both decisions. */
  lemma UpToDecisions(first: Status) returns (worlds: seq<World>, steps: seq<Step>)
    ensures |steps| == 7 && Run(worlds, steps) && Initial(worlds[0])
    ensures var (w, row) := (worlds[7], Overwrite(None, Notice(10, first), first));
            && Alone(w.db, Some(row)) && BothClaimed(w.db) && w.checks.Keys == {1, 2}
            && DecidedOn(w.checks[1], Notice(11, Active), row) && DecidedOn(w.checks[2], Notice(12, Canceled), row)
  {
    worlds, steps := Opening(first);
    var w5 := Purchase(worlds[4], first);
    worlds, steps := Extend(worlds, steps, FinishStep(Notice(10, first), 10, 0), w5);
    var w6, w7 := BothDecided(worlds[5], Overwrite(None, Notice(10, first), first));
    worlds, steps := Extend(worlds, steps, DECIDE_ACTIVE, w6);
    worlds, steps := Extend(worlds, steps, DECIDE_CANCELED, w7);
  }

  /** A run of two overlapping workers in which an event is written over a newer one: the event time goes back and a
      canceled account is on the paid plan. */
  lemma OverlapUndoesCancellation(first: Status) returns (worlds: seq<World>, steps: seq<Step>)
    requires first in {Active, PastDue}
    ensures |steps| == 9 && Run(worlds, steps) && Initial(worlds[0])
    ensures CanceledThenPaid(worlds[8].db, worlds[9].db, first)
  {
    worlds, steps := UpToDecisions(first);
    var w8, w9 := BothWritten(worlds[7], first, Overwrite(None, Notice(10, first), first));
    worlds, steps := Extend(worlds, steps, WriteStep(2), w8);
    worlds, steps := Extend(worlds, steps, WriteStep(1), w9);
  }
}
