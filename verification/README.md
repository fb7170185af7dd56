# QuerySure: verified models of its protocols and algorithms

QuerySure answers questions about uploaded data with the help of a language model. What must be right whatever the
model says is the deterministic code around it: small protocols on a shared database or on Redis, and a few search,
streaming and rewriting algorithms. This project models that code in Dafny and proves what it is relied on for.

Conventions. Identifiers and times are integers, money is `real`, a table is a map (or a sequence) of rows. A
committed transaction, or one network operation, is one atomic step, and a transaction that decides on what it reads
without a lock is two or more; a protocol is the set of all runs of such steps, in any interleaving of any number of
callers. Code that updates an object or rows in place is a class or a method with loops, and every such method is tied
by its `ensures` to a function of the old state; the properties are proved about that function or about all runs of
steps made of it. What a method does to the rows is also stated apart from that function, in the columns of the rows
before and after: when it goes through, when it refuses, and what it leaves alone.

## Components

* **Billing webhook engine** (`Billing`, `BillingPromises`, `BillingService`, `BillingRuns`, `BillingOrder`,
  `BillingOverlap`, `BillingConvergence`, `BillingInterleaved`; `billing_service.py`). Events arrive at least once and
  in any order. A ledger row claims an event, a resolver ties it to an account, a rule on (occurred_at, status rank)
  decides whether it applies, and `User.plan` caches the entitlement that a sweep brings back into line. `Billing`
  holds the transition functions, `BillingPromises` what is promised of each of them in the fields of the rows before
  and after, and `BillingService` the program's own form of them. In a run, claiming, finishing and failing an event
  are separate steps, and so are deciding on a subscription event and writing it, because nothing is locked in
  between: workers may overlap there, crash, and handle an event twice. The session keeps the row it decided on, and
  updates only columns whose new value differs from the one it has read (`Billing.WrittenRow`). Linking and payments
  read their rows under a lock of their own. A sweep writes to the rows it has read as lapsed, whatever happened to
  them since. The clock may go back between steps; statements about a moment use the latest time any step has worked
  with.
* **Result-set equivalence** (`Compare`, `CompareMeaning`, `CompareTolerance`, `CompareSearch`;
  `evaluation/compare.py`). The bounded backtracking search over injective column maps, pruned by sorted column
  signatures, and the fallback for numbers on either side of a rounding boundary. `CompareMeaning` says what an equal
  result is, cell by cell.
* **AI budget** (`RedisBudget`, `DbBudget`, `BudgetAdmission`, `Sums`; `api.py`, `db.py`). Reservation on Redis
  counters, where every reply and every compensating write may be lost, and on the database ledger; `BudgetAdmission`
  says exactly which requests are admitted when nobody is in between.
* **Optimistic session update** (`SessionUpdate`; `db.py`). Read, conditional write, re-read, one merge.
* **Join path and retrieval cache** (`JoinPath`, `RetrievalCache`; `modules/retrieval_engine.py`).
* **Streaming JSON array reader** (`JsonText`, `JsonGrammar`, `JsonLongNumbers`, `JsonReader`, `JsonChunks`,
  `JsonDocuments`, `JsonCutNumber`; `modules/ingestion.py`). `JsonText` is the decoder (RFC 8259, sections 2 to 7,
  plus the three constants the Python decoder adds, minus integers of more than 4300 digits, which it refuses with an
  error of another kind). `JsonReader` is the reader on chunks, `JsonChunks` compares it with one pass over the whole
  text. `JsonGrammar` is the grammar of the RFC as a relation between a stretch of a text and a value, which the
  decoder is proved to decide; `JsonDocuments` says which texts are accepted, and with which records.
* **Column and table names** (`Naming`, `Characters`; `modules/ingestion.py`), **literal binding** (`SqlParams`;
  `modules/sql_params.py`), **circuit breaker** (`CircuitBreaker`; `ai_guard.py`), **revocable sessions**
  (`AuthSessions`; `auth.py`), **quotas under the owner lock** (`Quotas`; `quotas.py`), **greedy row key**
  (`LongFormat`; `modules/long_format.py`).

## Where the code does not do what its comments say

* `billing_service.py:11-12` promises that an event older than the newest one applied is ignored, and line 152 that
  the lock on the user serializes the events of an account. The age check (lines 390-410) comes before the lock (line
  153) and is not repeated, so two workers may both decide to apply and then write in the wrong order: a run from an
  empty installation takes the event time back and leaves a canceled account on the paid plan, with an active row, or
  even with the canceled one (`BillingOverlap.OverlapUndoesCancellation`). `provider_event_at` never decreases along a
  run if and only if every write finds a row that is not newer than its event, or had the event's time already when it
  was decided on (`BillingOrder.EventTimeNeverDecreases`). Order safety of subscription ids holds in every run in
  which the order rule would still apply each event to the row its write finds (`BillingOrder.StillApplies`); that,
  the cached plan and convergence hold if nothing is written to the account's row between the decision on an event and
  its write (`BillingRuns.UnracedRun`, `BillingOrder.UnracedRunIsOrdered`). The constraints on accounts hold in any
  case (`BillingRuns.SubscriptionIdsAreUnique`). When exactly a write leaves a paid plan on a closed row is stated by
  `BillingRuns.PaidPlanOnClosedRowExactly`.
* `auth.py:259-260` promises at most `AUTH_MAX_ACTIVE_SESSIONS` live sessions per user. Counting and committing are
  not serialized, so two logins that overlap miss each other (`AuthSessions.OverlapExceedsLimit`: limit two, three
  sessions live). If at most n issues of a user ever overlap with one of theirs, the limit and n bound their live
  sessions, in every run (`AuthSessions.SessionLimitHolds`); without overlap the limit itself does. What is live after
  a commit is stated exactly by `AuthSessions.LiveAfterCommit`.
* `modules/ingestion.py:152` promises to stream records, and lines 194-202 take a failure of the decoder for a text
  that is cut short. An integer of more than 4300 digits raises an error that is not a `JSONDecodeError`, so a chunk
  that ends inside the digits of a float that long is rejected although the whole text is not
  (`JsonCutNumber.LongHalfDependsOnChunks`). Every way of cutting a text gives what one pass over it gives, if and
  only if that pass does not accept a record with such a number (`JsonChunks.ChunkIndependentExactly`); and what the
  reader accepts is right in any case (`JsonChunks.StreamIsOnePassOrRejects`).
* `api.py:774-776` and `api.py:2038-2039` say that a lost compensating write can only leave a counter higher than true
  spend. A lost *settlement* of a request that cost more than it reserved leaves it lower
  (`RedisBudget.LostCorrectionUndercounts`). The accounting is exact in every state, whatever was lost
  (`RedisBudget.CounterIsExact`), so the counter is below true spend if and only if more is missing on it than it
  started with and was left over (`RedisBudget.BelowSpendExactly`); with nothing left over, if and only if some
  request misses an upward correction (`RedisBudget.PromiseFailsExactly`). The cap itself survives every loss
  (`RedisBudget.CapHolds`).
* `modules/retrieval_engine.py:23-27` says that a stale key can only cause a rebuild. The fingerprint joins encoded
  ids and texts with separator bytes that a text may itself contain, and encoding maps a lone surrogate to a question
  mark (`RetrievalCache.FingerprintAmbiguous`, `RetrievalCache.SurrogateAmbiguous`). A cached list that passes the
  check against documents free of both has their ids and texts if and only if it is free of both itself
  (`RetrievalCache.CheckIsExact`); the vectors and the idf table are then the fresh ones. Nor does the fingerprint
  cover type, table, metadata or priority (`RetrievalCache.CachedDetailsMayBeStale`): those are right if and only if
  the documents at hand are what was last put under the key (`RetrievalCache.CachedDetailsAreRightExactly`).
* `quotas.py:149-155` promises that no other upload slips in between check and reservation. A count may fall short in
  four ways, each with a run in which it alone exceeds the quota: an ingestion finishes between the two reads of
  `usage_for_user` (`Quotas.FinishBetweenReads`), is being retried (`Quotas.RetryIsNotCounted`), has outlived the
  window (`Quotas.OverdueIsNotCounted`), or two sessions share a dataset (`Quotas.SharedIsCountedOnce`). The two reads
  see every other session in use if and only if none of the first three goes unseen (`Quotas.SeesAllExactly`), and
  count one dataset for each if and only if none is shared (`Quotas.PathsCountSessionsExactly`). Without these flaws
  the quota holds in every interleaving (`Quotas.QuotaHolds`). The fourth needs data that come from elsewhere: each
  ingestion stores a fresh dataset (`storage.py:247`), or when retried its own, under the one session of its job
  (`jobs.py:132`), so sharing never arises from a state without it (`Quotas.UnsharedStays`); that rows may share a
  dataset is provided for by the grouping of `quotas.py:55-63` and by `jobs.py:84-85`.
* Out-of-order events that are not written over each other as above always converge on time and status. They converge
  on the period end if and only if `BillingConvergence.EndSettled` holds of the events, because an absent period end
  leaves the stored one untouched and equal keys apply again (`BillingConvergence.EndConvergesExactlyWhenSettled`);
  and on the cached plan if and only if all period ends that some order may leave entitle the same plan
  (`BillingConvergence.PlanConvergesExactlyWhenSettled`), as they do when the period end converges, and also when the
  latest state entitles nothing.

## Model

| member | source | states |
|---|---|---|
| `BillingService.Service.SetFields` | billing_service.py:166-182 | an event overwrites status, plan, provider, cancellation flag and event time, and a missing optional field keeps the stored value |
| `BillingService.Service.ApplyVerifiedBillingEvent` | billing_service.py:124-189 | the row and the cached plan of exactly one account are replaced, the plan by the entitlement of the new row |
| `BillingService.Service.FindOwner` | billing_service.py:361-366 | finds the account that holds a provider subscription id, or that none does |
| `BillingService.Service.ResolveAccount` | billing_service.py:353-376 | the account an event belongs to: checkout reference, then subscription id, then customer id; contradicting references are a conflict |
| `BillingService.Service.HeldByAnother` | billing_service.py:390-396 | whether some other account has the event's subscription id on file |
| `BillingService.Service.CheckOrder` | billing_service.py:397-410 | an event passes the order rule if and only if there is no row, or both ids are known and differ, the status is active and the event is newer, or else (event time, rank) is at least the row's; rows without an id included |
| `BillingService.Service.ApplySubscription` | billing_service.py:379-421 | the whole decision of a subscription event; it is applied if and only if plan and status are known, the id is held by no one else, and the event is due: the first, or active for another subscription and newer, or at least as late and as restrictive as what the row has; applied, row and plan are the event's, and otherwise the database is as it was |
| `BillingService.Service.Link` | billing_service.py:424-443 | linking fills in absent ids only, never the plan, and completes the checkout |
| `BillingService.Service.RecordPayment` | billing_service.py:446-467 | a payment is recorded or updated unless it is older or would undo a refund |
| `BillingService.Service.DispatchEvent` | billing_service.py:470-488 | every kind of event ends in exactly the outcome and database of the transition function; a payment event without a payment status is ignored with its account |
| `BillingService.Service.ClaimEvent` | billing_service.py:297-329 | an event is claimed if new, failed, deferred, or claimed more than 300 s ago, and else nothing is written |
| `BillingService.Service.ProcessVerifiedEvent` | billing_service.py:494-516 | one delivery: duplicate, or dispatched and recorded; an internal error rolls all of it back and leaves the event claimable |
| `BillingService.Service.ReconcileLapsedSubscriptions` | billing_service.py:522-549 | the loop cancels and downgrades exactly the paid rows over their period and grace, leaves all others, and counts them |
| `BillingPromises.RankIsRestriction` | billing_service.py:51 | the rank orders statuses by how much they restrict |
| `BillingPromises.EntitledIsPaid` | billing_service.py:74-98 | a row entitles its plan exactly if it is active with no known end, or active or past due within its period and grace |
| `BillingPromises.ResolutionIsKept` | billing_service.py:353-376 | the account found is the one named by checkout, subscription id or customer id, a conflict is a disagreement of these, and nothing is found exactly when none names one |
| `BillingPromises.SubscriptionIsKept` | billing_service.py:379-421 | in the fields of the rows: when a subscription event is applied, deferred, ignored or in conflict, and what row, plan and checkout are afterwards |
| `BillingPromises.LinkIsKept` | billing_service.py:424-443 | linking fills in exactly the absent ids, completes the checkout and grants nothing; it is refused exactly when the subscription id is another account's |
| `BillingPromises.PaymentIsKept` | billing_service.py:446-467 | a payment is refused exactly when it is older than the stored one or would undo a refund, and otherwise stored with absent fields kept |
| `BillingPromises.DispatchIsKept` | billing_service.py:346-488 | which kind of event has which effect; an event that names no account is deferred while it is young and ignored once it is old, with nothing written |
| `BillingPromises.ClaimIsKept` | billing_service.py:297-329 | an event is claimed exactly if it is new, failed, deferred, or claimed more than 300 seconds ago |
| `BillingPromises.RecordIsKept` | billing_service.py:494-516 | the ledger row gets outcome and account, and is done unless the event was deferred; no other row changes |
| `BillingPromises.SweepIsKept` | billing_service.py:522-549 | exactly the paid rows whose period and grace are over end canceled and free |
| `BillingPromises.EventIsDelivered` | billing_service.py:494-516 | one delivery from claim to record: a duplicate changes nothing, anything else is dispatched once as promised |
| `BillingRuns.FinishShape` | billing_service.py:470-488 | every way finishing an event can end: account rows unchanged, or applied or linked to the one account it resolved to, which held a reference of the event |
| `BillingRuns.Isolation` | billing_service.py:353-376 | an event changes subscription, plan and checkouts of at most one account, and that account already held the event's checkout, subscription id or customer id |
| `BillingRuns.FinishKeepsValid` | billing_service.py:390-396 | no event makes two accounts hold one provider subscription id |
| `BillingRuns.CheckThenWriteIsFinish` | billing_service.py:379-421 | deciding and then writing with nothing in between is finishing the event |
| `BillingRuns.StepKeepsInv` | billing_service.py:379-421 | every step keeps the database constraints, and every decision a worker holds stays one that passed the order rule, for an account and a checkout that exist |
| `BillingRuns.ReachableInv` | billing_service.py:379-421 | the same in every state of every run that starts with nothing sold, however workers overlap |
| `BillingRuns.SubscriptionIdsAreUnique` | billing_service.py:390-396 | however workers overlap, no two accounts ever share a subscription id |
| `BillingRuns.StepKeepsCache` | billing_service.py:183-187 | every step whose write finds the row it was decided on keeps an account's cached plan at least at the entitlement and backed by a live paid row |
| `BillingRuns.CachedPlanFollowsEntitlement` | billing_service.py:74-98 | in every state of a run that never writes to the account's row between a decision and its write: entitled to pro now or later means the plan is pro; a paid plan has a pro row that is active, or past due with a period end |
| `BillingRuns.PaidPlanOnClosedRowExactly` | billing_service.py:166-187 | under any overlap, a write leaves a paid plan on a closed row if and only if the event entitles to it, its status is the one seen at the decision, and the row has been closed since |
| `BillingRuns.ReconciledPlanIsEntitlement` | billing_service.py:522-549 | in such a run, right after a sweep whose list is still right, the cached plan equals the entitlement: pro exactly for a pro row that is active or past due within its period and grace, or active with no known end |
| `BillingOrder.StepTimeExactly` | billing_service.py:397-421 | one step lowers an account's event time if and only if it is a write that finds a newer row, and not one that leaves the column alone |
| `BillingOrder.EventTimeNeverDecreases` | billing_service.py:397-421 | `provider_event_at` never decreases along a run if and only if no write of the run comes too late |
| `BillingOrder.UnracedRunIsOrdered` | billing_service.py:152-161 | no write comes too late, and the order rule still applies to every row found, if nothing is written to the account's row between a decision and its write |
| `BillingOrder.StepOrder` | billing_service.py:397-421 | one step whose event still passes the order rule on the row it finds never lowers an account's event time, and replaces its subscription id only by a strictly newer activation |
| `BillingOrder.IdChangesOnlyByNewerActivation` | billing_service.py:397-421 | in every run of such steps a subscription id on file is never dropped, and a different one later goes back to an active event newer than everything applied until then |
| `BillingOrder.LateEventsNeverAlterReplacement` | billing_service.py:397-421 | in every such run, once a subscription has been replaced, its cancellations and older events never change the account, whatever else happens |
| `BillingOverlap.OverlapUndoesCancellation` | billing_service.py:389-415 | a run in which two workers both decide before either writes: the event time goes back and the canceled account has the paid plan again |
| `BillingConvergence.VerdictIsKeyOrder` | billing_service.py:397-415 | on a linked account the order rule is exactly the lexicographic order of (occurred_at, status rank), ties applying again |
| `BillingConvergence.ProcessAbsorbs` | billing_service.py:494-516 | the first delivery of a valid event is absorbed by the account, every further delivery leaves the whole database as it is |
| `BillingConvergence.RunIsFold` | billing_service.py:494-516 | any run of deliveries, with any duplication, is the fold of the events in order of first delivery |
| `BillingConvergence.KeyIsMaximum` | billing_service.py:397-415 | the row ends at the greatest (occurred_at, status rank) among the events and the initial row |
| `BillingConvergence.TimeAndStatusConverge` | billing_service.py:379-421 | two histories of the same events, in any order and multiplicity, agree on event time and status, which are that maximum |
| `BillingConvergence.EndConvergesExactlyWhenSettled` | billing_service.py:166-182 | all orders agree on the period end if and only if the events of greatest key name one period end, or name none and no other applicable event names one that differs from the one on file |
| `BillingConvergence.UnsettledEndDiverges` | billing_service.py:166-182 | otherwise two orders of the same deliveries that end with different period ends are constructed |
| `BillingConvergence.PlanConvergesExactlyWhenSettled` | billing_service.py:183-187 | at a fixed time all orders agree on the cached plan if and only if every period end that some order may leave entitles the same plan at the top status |
| `BillingConvergence.OrderEndingIn` | billing_service.py:166-182 | every period end named as possible is the final one in some order of the same deliveries |
| `BillingConvergence.ClosedTopIsPlanSettled` | billing_service.py:90-91 | it does so, whatever period ends the events name, when the latest state entitles nothing |
| `BillingConvergence.PlanConverges` | billing_service.py:183-187 | so the cached plan converges whenever the period end does |
| `BillingConvergence.LatestCancellationWins` | billing_service.py:49-50 | at equal times the more restrictive state wins: with a cancellation among the latest events the account ends canceled and free, in whatever order and how often they arrive |
| `BillingInterleaved.KeyIsMaximumInRun` | billing_service.py:297-343 | in every run of the engine in which claims, failures, retries, repeated finishes, decisions, unraced writes and other accounts interleave, the row ends at the greatest (occurred_at, status rank) among the events finished and the row at the start |
| `BillingInterleaved.RunsConverge` | billing_service.py:379-421 | two such runs that finish the same events, each any number of times, agree on the event time, on the status once any event has been applied, and on the period end if it is settled for those events |
| `BillingInterleaved.RunPlansConverge` | billing_service.py:183-187 | and on the cached plan, if all are handled at one time and every period end that some order may leave entitles the same plan |
| `Compare.SortDecides` | evaluation/compare.py:58-59 | sorted columns are equal exactly when they hold the same values with the same multiplicities |
| `Compare.AllMapsExact` | evaluation/compare.py:88-114 | the enumeration below a partial map contains exactly the full, injective, signature-respecting maps that extend it |
| `Compare.AllMapsDistinct` | evaluation/compare.py:88-114 | each map is enumerated once |
| `Compare.EqualRowsEqualColumns` | evaluation/compare.py:62-65 | equal row multisets have equal column multisets |
| `Compare.MatchRespectsSignatures` | evaluation/compare.py:58-65 | a map that makes the rows equal, in order or as multisets, respects the signatures, so pruning drops no match |
| `Compare.SearchIsComplete` | evaluation/compare.py:88-151 | some injective column map makes the rows equal if and only if an enumerated one does |
| `CompareMeaning.CanonDecides` | evaluation/compare.py:46-55 | canonical forms are equal exactly for the same null, text or byte string, and for numbers that round to the same four decimals, a truth value being one or zero |
| `CompareMeaning.EquivalentIsSame` | evaluation/compare.py:62-65 | rows are equal under a column map exactly if some pairing of the rows, the identity when the order counts, makes every cell agree with its counterpart |
| `CompareMeaning.SignatureIsContent` | evaluation/compare.py:58-59 | two columns have one signature exactly if their cells agree under some pairing of the rows |
| `CompareTolerance.SortIsStable` | evaluation/compare.py:71-74 | the sort of the fallback keeps the rows, puts them in order, and leaves those of one canonical form in the order they had |
| `CompareTolerance.CellsDiffer` | evaluation/compare.py:76-84 | numbers differ exactly if they are further apart than 0.0001 and than a relative 1e-9; anything else exactly if it is not the same |
| `CompareTolerance.TolerantEqual` | evaluation/compare.py:68-85 | close row by row as they are, or after stable sorts when the order does not count |
| `CompareTolerance.TolerantIsClose` | evaluation/compare.py:68-85 | what the fallback accepts is close cell by cell under some pairing of the rows, the identity when the order counts |
| `CompareSearch.MappingSearch.Rec` | evaluation/compare.py:93-113 | backtracking yields the extensions of the partial map in order up to 5000 maps in all, and restores the partial map |
| `CompareSearch.MappingSearch.Descend` | evaluation/compare.py:103-110 | trying one column yields what lies below it and undoes the choice |
| `CompareSearch.CandidateMappings` | evaluation/compare.py:88-114 | the first 5000 of the enumerated maps, and all of them if there are fewer |
| `CompareSearch.FindMatch` | evaluation/compare.py:146-151 | true exactly when one of the given maps makes the rows equal |
| `CompareSearch.SearchedVerdict` | evaluation/compare.py:145-151 | a match found is always right; a failure is right unless more than 5000 maps exist |
| `CompareSearch.ExplainMismatch` | evaluation/compare.py:167-171 | the columns without counterpart, exactly, or none of them |
| `CompareSearch.CompareColumns` | evaluation/compare.py:141-171 | which of exact, superset, different order, within tolerance or no match is reported, each in both directions |
| `CompareSearch.CompareResults` | evaluation/compare.py:117-171 | a match by column map has an injective map of the columns and a pairing of the rows, row by row if the order counts, under which every cell agrees, and is found whenever there is one unless the search was cut off; a match within tolerance has a pairing under which all cells are close; every other verdict is characterised |
| `CompareSearch.ColumnOrderIrrelevant` | evaluation/compare.py:88-114 | permuting the candidate's columns changes neither equivalence nor the number of maps |
| `CompareSearch.CompareRearranged` | evaluation/compare.py:117-171 | comparing with a candidate and with its columns permuted agrees on whether a column map decides, unless the search was cut off; and on the match, unless the fallback decides one of the two |
| `CompareSearch.RowOrderIrrelevant` | evaluation/compare.py:62-65 | without order, permuting the candidate's rows changes neither equivalence nor the maps, nor what the maps searched find |
| `CompareSearch.CompareReordered` | evaluation/compare.py:117-171 | two unordered comparisons with the same candidate rows in another order agree on whether a column map decides, cut off or not; and on the match, unless the fallback decides one of the two |
| `RedisBudget.StepOnCounter` | api.py:761-827 | whatever is lost, a step moves a counter by exactly what the request then has on it |
| `RedisBudget.StepOnClaim` | api.py:785-827 | a claim is granted only when the counter, increment included, is within the limit |
| `RedisBudget.StepKeepsInv` | api.py:2048-2065 | every network operation keeps: the counter is what it started with plus what the requests have on it, and claims are within the limit |
| `RedisBudget.CapHolds` | api.py:785-827 | in every interleaving, with any replies and compensating writes lost, admitted plus settled spend exceeds the cap where it is enabled, and each user's limit, by at most the overshoots of actual over reserved |
| `RedisBudget.CounterIsExact` | api.py:761-782 | in every state, whatever was lost: counter plus missing corrections equals start plus spend plus what was left over |
| `RedisBudget.CounterCoversSpend` | api.py:2091-2104 | a counter is below true spend by at most the overshoots whose correction has not reached it |
| `RedisBudget.BelowSpendExactly` | api.py:774-782 | a counter is below true spend if and only if more is missing on it than it started with and was left over |
| `RedisBudget.PromiseFailsExactly` | api.py:774-782 | from zero and with nothing left over, the counter is below true spend if and only if some request that cost more than it reserved misses its correction |
| `RedisBudget.LostCorrectionUndercounts` | api.py:774-782 | a run in which a lost correction leaves the counter below true spend |
| `BudgetAdmission.RedisReservesExactly` | api.py:761-827 | a reservation whose every operation is answered, with nobody in between, is held if and only if the all-users counter with the estimate is within the cap or the cap disabled, and the user's within the limit; held, it is on both counters once, refused, on neither |
| `BudgetAdmission.RedisSettlesExactly` | api.py:798-833 | a settlement that is answered replaces the estimate by the real cost on both counters |
| `DbBudget.UsageDaily.ReserveDailyBudget` | db.py:645-662 | one conditional update decides and reserves; other users' rows stay, and the total moves by the estimate or not at all |
| `DbBudget.UsageDaily.SettleDailyBudget` | db.py:665-676 | the reservation is replaced by the real cost, floored at zero; other users' rows stay, and the total moves by the difference |
| `DbBudget.UsageDaily.GlobalSpend` | db.py:679-683 | the sum of all users' rows |
| `DbBudget.UsageDaily.DbReservePair` | api.py:2068-2077 | undisturbed, a request is admitted exactly when the user is under the limit and the total stays within the cap, and a refusal leaves the ledger as it was |
| `DbBudget.GlobalCapHolds` | api.py:2068-2077 | with the cap enabled and under every interleaving of reserve, verify, back out and settle, admitted plus settled spend exceeds it by at most the overshoots |
| `DbBudget.UserLimitHolds` | db.py:645-662 | one user's concurrent requests exceed the user's limit by less than one estimate, overshoots aside |
| `BudgetAdmission.DatabaseReservesExactly` | api.py:2068-2077 | the same reservation on the ledger, transaction by transaction: held if and only if the user is under the limit and the total with the estimate within the cap; refused, the ledger is as it was |
| `BudgetAdmission.DatabaseSettlesExactly` | db.py:665-676 | a recorded settlement replaces the estimate by the real cost, floored at zero |
| `SessionUpdate.SessionTable.ConditionalUpdate` | db.py:534-536 | writes the named fields and raises the version only if id and version match, reports whether it did, and leaves every other row alone |
| `SessionUpdate.UpdateCall.FirstTry` | db.py:527-540 | commits exactly if the version is still the one read, and then overwrites only the named fields; otherwise nothing is written |
| `SessionUpdate.UpdateCall.Reread` | db.py:541-549 | not found exactly if the row is gone or another user's, in conflict exactly if a named field was changed, and otherwise ready to merge |
| `SessionUpdate.UpdateCall.SecondTry` | db.py:550-561 | the one merge: commits exactly if the version is the one re-read, and is a conflict otherwise |
| `SessionUpdate.UpdateCall.UpdateSession` | db.py:524-561 | alone, the whole call is an atomic compare-and-set of the named fields: committed, in conflict or not found exactly when that is so |
| `SessionUpdate.CallEndsExactly` | db.py:524-561 | how each transaction of a call ends: committed exactly if the version is the one read or re-read, not found, in conflict over a named field, or in conflict when the second race is lost too |
| `SessionUpdate.CommitIsCas` | db.py:524-561 | whatever happened in between, a committing transaction is a compare-and-set against what the caller first read |
| `SessionUpdate.EveryCommitIsAtomic` | db.py:524-561 | in every run, a commit overwrites only fields that still hold what the caller read, keeps all other fields and rows, raises the version by one; other transactions write nothing |
| `SessionUpdate.RunIsSerial` | db.py:524-561 | the committed updates of any run, executed one by one as compare-and-sets, all succeed and give the same table |
| `JoinPath.RelationshipGraph` | modules/retrieval_engine.py:94-103 | the edges are exactly the related pairs of distinct non-empty names, in both directions |
| `JoinPath.SortedNames` | modules/retrieval_engine.py:114 | the names of a set, each once, in order |
| `JoinPath.WalkIsFirstDifference` | modules/retrieval_engine.py:108-117 | the order in which walks of one length are found: the first difference decides, by name |
| `JoinPath.WalkMeetsQueue` | modules/retrieval_engine.py:106-118 | queue invariant: every walk from the start is dealt with table by table or meets the queue no later than its own part |
| `JoinPath.AdvanceKeepsBetween` | modules/retrieval_engine.py:108-117 | one turn keeps the queue sorted and every recorded walk the first one to its table |
| `JoinPath.Expand` | modules/retrieval_engine.py:114-117 | queues the unseen neighbours in sorted order |
| `JoinPath.FindPath` | modules/retrieval_engine.py:106-118 | the alphabetically first of the walks with the fewest edges; no walk is shorter, and it is empty exactly when every walk has more than max_hops edges |
| `JoinPath.ReachIsSymmetric` | modules/retrieval_engine.py:94-118 | connecting a to b is as possible, and as long, as connecting b to a |
| `RetrievalCache.FingerprintInjective` | modules/retrieval_engine.py:58-65 | on documents free of separators and lone surrogates equal fingerprints mean equal (id, text) lists |
| `RetrievalCache.CheckIsExact` | modules/retrieval_engine.py:58-65 | a list that passes the check against such documents has their ids and texts if and only if it is free of both itself |
| `RetrievalCache.FingerprintAmbiguous` | modules/retrieval_engine.py:58-65 | two document lists with one fingerprint that differ |
| `RetrievalCache.SurrogateAmbiguous` | modules/retrieval_engine.py:61 | a lone surrogate and a question mark give one fingerprint |
| `RetrievalCache.IndexCache.CacheGet` | modules/retrieval_engine.py:34-39 | a hit is returned and becomes the most recent entry; every key keeps its entry |
| `RetrievalCache.IndexCache.CachePut` | modules/retrieval_engine.py:42-47 | insert as most recent; every other key keeps its entry, but for the oldest when the key is new and there are 128 others |
| `RetrievalCache.PutMakesRoom` | modules/retrieval_engine.py:42-47 | exactly one entry is lost when a new key meets a full cache, the least recently used one, and none otherwise |
| `RetrievalCache.IndexCache.ClearCacheKey` | modules/retrieval_engine.py:50-55 | the key is no longer found, and every other lookup is as it was |
| `RetrievalCache.IndexCache.BuildVectorStore` | modules/retrieval_engine.py:184-205 | if there is a key, a fresh index is found under it afterwards, within the bound |
| `RetrievalCache.IndexCache.IndexFor` | modules/retrieval_engine.py:217-226 | the index used is the cached one exactly if that passes the check, and a fresh one otherwise; for clean documents its ids and texts are theirs exactly if its own are clean, and then its vectors and idf are the fresh ones |
| `RetrievalCache.EntriesAreLastPut` | modules/retrieval_engine.py:34-70 | after any history every entry is a fresh index of what was last put under its key |
| `RetrievalCache.CacheIsTransparent` | modules/retrieval_engine.py:34-70 | after any history of puts, hits and clears under any keys, an entry that passes the check against clean documents has their ids and texts exactly if what was put was clean, and then the fresh weights; the cache holds at most 128 entries |
| `RetrievalCache.CachedDetailsAreRightExactly` | modules/retrieval_engine.py:23-27 | the cached documents are the ones at hand, details included, if and only if those were last put under the key |
| `RetrievalCache.CachedDetailsMayBeStale` | modules/retrieval_engine.py:58-70 | a history after which the cached documents differ from the ones passed in although the check passes |
| `RetrievalCache.CacheIsRecencyOrdered` | modules/retrieval_engine.py:34-55 | the cache is always in order of last use |
| `RetrievalCache.EvictsLeastRecentlyUsed` | modules/retrieval_engine.py:42-47 | what a put evicts was used before everything it keeps |
| `JsonText.ValueStable` | modules/ingestion.py:197 | more text changes no decoded value that is bracketed or ends where it cannot go on, and such a value of a longer text is decoded from every prefix that holds it |
| `JsonText.ObjectPrefixStable` | modules/ingestion.py:197 | an object decoded from a prefix of a text is the object decoded from the whole text, and the other way round if the prefix holds it |
| `JsonGrammar.StringDecided` | modules/ingestion.py:197 | the decoder reads a string as the code points that its characters, letter escapes, number escapes and surrogate pairs spell (section 7 of RFC 8259), and nothing else |
| `JsonGrammar.ScalarDecided` | modules/ingestion.py:197 | it reads a scalar as a constant, or as the longest number the text starts with (section 6 of RFC 8259), integers of more than 4300 digits refused |
| `JsonGrammar.DecodesExactly` | modules/ingestion.py:197 | it gives a value and where it ends if and only if the text up to there is derived from that value by the grammar of RFC 8259 with its three additional constants |
| `JsonLongNumbers.RefusedGrows` | modules/ingestion.py:197 | a prefix that is refused for good and turns into a value with more text turns into one that holds a number with too many digits |
| `JsonLongNumbers.LongCut` | modules/ingestion.py:197 | every value that holds such a number has a prefix that is refused |
| `JsonChunks.ParseRecord` | modules/ingestion.py:194-212 | decoding a record from the buffer is decoding it from everything still unread, or both are rejected |
| `JsonReader.Reader.StageRecord` | modules/ingestion.py:202-211 | a record is staged exactly if it is an object within the column and row limits and can be written as UTF-8 |
| `JsonReader.Reader.ConsumeArray` | modules/ingestion.py:182-212 | the loop stages the records, leaves the buffer and the unread chunks, or fails, as the array function on chunks says |
| `JsonReader.Reader.ReadRecords` | modules/ingestion.py:176-283 | verdict and records of the program's reader are those of the document function on chunks, tail check included |
| `JsonChunks.StreamIsSound` | modules/ingestion.py:182-212 | the array loop finds what one pass over buffer and chunks finds, or fails; where one pass does not fail it fails only at a number with too many digits |
| `JsonChunks.StreamIsOnePassOrRejects` | modules/ingestion.py:176-283 | the reader's verdict is that of one pass, records included, or a rejection; the latter only if one pass accepts a record with such a number |
| `JsonChunks.LongNumberIsCut` | modules/ingestion.py:196-203 | every text that one pass accepts with such a number is rejected when it is cut in two at a suitable place |
| `JsonChunks.OneChunk` | modules/ingestion.py:176-283 | read in one chunk, a text gets the verdict of one pass |
| `JsonChunks.ChunkIndependentExactly` | modules/ingestion.py:174-283 | verdict and records are independent of the chunks if and only if one pass does not accept a record with such a number |
| `JsonCutNumber.LongHalfDependsOnChunks` | modules/ingestion.py:196-203 | a text with a number of more than 4300 digits and a half: accepted in one chunk, rejected in two |
| `JsonChunks.ReadTwoWays` | modules/ingestion.py:174-283 | two ways of cutting a text into non-empty chunks: each accepts only what one pass accepts, and without such a number in a record they agree with it and with each other |
| `JsonDocuments.AcceptedExactly` | modules/ingestion.py:176-283 | one pass accepts a text with given records if and only if it is an array of exactly these, with white space and commas between them, at least one and at most the row limit, each an object with at most the allowed number of different keys and without a lone surrogate |
| `JsonDocuments.StreamAcceptsExactly` | modules/ingestion.py:176-283 | however the text is cut, the reader accepts no others, and accepts every such text with no long number in a record |
| `JsonDocuments.NotAnArrayExactly` | modules/ingestion.py:214-218 | a text is turned away as no array exactly if its first character that is no white space is no opening bracket |
| `Naming.DecimalInjective` | modules/ingestion.py:58-61 | different suffixes are different texts |
| `Naming.DecimalReadsBack` | modules/ingestion.py:58-61 | a suffix is the decimal text of its number, without leading zeros |
| `Naming.CandidatesDiffer` | modules/ingestion.py:490-496 | two candidates for one sheet differ although both are cut at 60 characters, for suffixes of up to eight digits |
| `Naming.Pigeonhole` | modules/ingestion.py:58-61 | a run of taken candidates is no longer than the set of names used |
| `Naming.FindFree` | modules/ingestion.py:56-62 | the suffix loop ends within one more try than there are names, at the first candidate nobody has |
| `Naming.FirstFreeExactly` | modules/ingestion.py:56-62 | the first free candidate is the name itself if nobody has it, and otherwise the name with the least free number from 2 on |
| `Naming.CleanedIsSafe` | modules/ingestion.py:50-55 | cleaning a header yields lower-case letters, digits and underscores with no underscore at either end, or nothing |
| `Naming.CleanTwice` | modules/ingestion.py:50-55 | cleaning is idempotent |
| `Naming.CleanedKeepsWords` | modules/ingestion.py:50-55 | cleaning keeps every run of letters and digits, in lower case and in order, joins none and invents none; a per cent sign starts a word "pct" if it is kept |
| `Naming.NamelessExactly` | modules/ingestion.py:42-44 | a header is none exactly if it is white space, or "unnamed:" in any case with white space and digits behind it |
| `Naming.BaseNameIsSafe` | modules/ingestion.py:44-55 | every column gets a safe base name, and one without a usable header its numbered placeholder |
| `Naming.NormalizeColumns` | modules/ingestion.py:32-69 | distinct, safe names for exactly the columns with a header or values, in source order, each the first free candidate of its cleaned header; an error exactly if there are none |
| `Naming.TableNames` | modules/ingestion.py:481-498 | pairwise distinct table names of at most 60 characters, each the first free candidate of its sheet |
| `SqlParams.OpenAfterIsOpen` | modules/sql_params.py:29-36 | the stack of parentheses lists exactly those still open, outermost first |
| `SqlParams.TopIsInnermost` | modules/sql_params.py:29-36 | the top of the stack is true exactly when the innermost open parenthesis is an IN list that opens with no subquery |
| `SqlParams.OperandsAreBound` | modules/sql_params.py:37-47 | a string is bound exactly if a comparison or BETWEEN comes just before, or an AND with a BETWEEN among the four tokens before, or an opening parenthesis or a comma in a list that follows IN and opens no subquery |
| `SqlParams.ShouldBind` | modules/sql_params.py:37-47 | the decision at a token: string literals that are comparison operands, BETWEEN bounds or IN-list members, and no others |
| `SqlParams.RoundTrip` | modules/sql_params.py:47-52 | whatever tokens are bound, putting each one's own span back in place of its mark restores the query text |
| `SqlParams.SentIsReplaced` | modules/sql_params.py:47-52 | the text sent is the original with each chosen token replaced by a question mark |
| `SqlParams.ParameterizeLiterals` | modules/sql_params.py:18-52 | the text with each bound token replaced by a question mark, and the texts of the bound tokens in order |
| `SqlParams.ParamsMatchMarks` | modules/sql_params.py:47-52 | the marks stand for exactly the bound tokens in order, all of them strings, and the k-th parameter is the text of the k-th |
| `CircuitBreaker.Breaker.Allow` | ai_guard.py:57-68 | admitted exactly if closed, or if no probe is out and a cooldown has passed since it opened; then the call is the probe |
| `CircuitBreaker.Breaker.RecordSuccess` | ai_guard.py:70-77 | closed, with no failures and no probe; the state is the one the trace leads to |
| `CircuitBreaker.Breaker.RecordFailure` | ai_guard.py:79-91 | one more failure, open from the threshold on, and a failed probe reopens with a fresh cooldown; the state is the one the trace leads to |
| `CircuitBreaker.AdmittedExactly` | ai_guard.py:57-91 | from the events alone: with fewer than threshold failures since the last success every call is admitted; with more, a call is admitted if and only if a cooldown has passed since the last failure and no call was admitted since it |
| `CircuitBreaker.AdmissionAfterCooldown` | ai_guard.py:57-68 | while open, a call is admitted only a full cooldown after every failure recorded before |
| `CircuitBreaker.OneProbeAtATime` | ai_guard.py:57-91 | two calls admitted while open have a recorded outcome between them |
| `CircuitBreaker.Drive` | ai_guard.py:50-91 | whatever callers do, the trace follows the rule, and the breaker is closed exactly when fewer than threshold failures came since the last success |
| `AuthSessions.KeptSessions` | auth.py:271-282 | at most the limit are kept, and every one kept is newer than every one revoked |
| `AuthSessions.AuthStore.IssueSessionToken` | auth.py:258-286 | insert, prune the user's long-dead rows, revoke what exceeds the limit, and the token's claims |
| `AuthSessions.AuthStore.RevokeSession` | auth.py:289-297 | if it reports true, the token of that session is refused ever after and every other token is as before; otherwise nothing changes |
| `AuthSessions.AuthStore.RevokeAllSessions` | auth.py:300-307 | every token of the user with a version up to the old one, or of a session then in the table, is refused at every later time, and every other user's tokens are accepted exactly as before |
| `AuthSessions.AuthStore.PurgeDeadSessions` | auth.py:310-317 | deletes exactly the rows expired or revoked longer ago than the given days, and counts them |
| `AuthSessions.AuthStore.GetCurrentUser` | auth.py:494-519 | a token is accepted exactly if it has not expired, its user is active and at its version, and its session, which it must have when required, is live |
| `AuthSessions.IssueIsKept` | auth.py:258-286 | in the rows: what issuing inserts, prunes and revokes, and that every other row stays |
| `AuthSessions.CountThenCommitIsIssue` | auth.py:258-286 | counting and committing with nothing in between is issuing |
| `AuthSessions.LiveAfterCommit` | auth.py:271-282 | after a commit exactly those sessions are live that were, with the new one, and that it did not evict; at most the limit of them were counted, all others issued since |
| `AuthSessions.SessionLimitHolds` | auth.py:271-282 | if at most n issues of a user overlap with one of theirs, the user never has more live sessions than the limit and n; with no overlap never more than the limit |
| `AuthSessions.OverlapExceedsLimit` | auth.py:264-285 | a run with limit two in which two issues miss each other and three sessions are live |
| `AuthSessions.RefusalIsPermanent` | auth.py:494-519 | a token refused once is never accepted again, over any run of overlapping issues, revoke, revoke-all, limit eviction, purge, sign-up and deactivation; whatever version a revoke-all writes if the token has a session, and as long as none goes down if it has none |
| `AuthSessions.HandedOutTokenStaysRefused` | auth.py:258-286 | every token that a run hands out, once refused, is refused ever after |
| `AuthSessions.PurgeChangesNoAcceptance` | auth.py:310-317 | purging changes no token's acceptance, now or later |
| `AuthSessions.IssueChangesNoOtherAcceptance` | auth.py:258-286 | issuing affects no token but the new one and those evicted by the limit |
| `AuthSessions.NewTokenAccepted` | auth.py:258-286 | the new token is accepted at once if and only if fewer than the limit of the user's other live sessions come before it, by creation time and then by id |
| `AuthSessions.NewestTokenAccepted` | auth.py:258-286 | with a limit of at least one it always is when every other live session is older |
| `Quotas.SeesAllExactly` | quotas.py:53-75 | the two reads see every other session in use if and only if no ingestion slipped between them and none that is retried or overdue goes unseen |
| `Quotas.PathsCountSessionsExactly` | quotas.py:55-63 | counting distinct paths is counting sessions if and only if no two of them share a dataset |
| `Quotas.CountCovers` | quotas.py:53-75 | a complete count is at least the number of the other sessions in use |
| `Quotas.DecisionIsRightExactly` | quotas.py:130-136 | a decision that adds a session is right for every quota if and only if the count is at least the number of sessions in use |
| `Quotas.StepKeepsInv` | quotas.py:130-159 | every respectful step keeps the quota, the lock and the standing counts |
| `Quotas.QuotaHolds` | quotas.py:130-159 | in every interleaving in which no count falls short, sessions with a dataset or an ingestion that may still attach one never exceed the quota |
| `Quotas.UploadIsGrantedExactly` | quotas.py:53-159 | an upload with nobody in between is granted if and only if the different datasets of the other sessions, the ingestions queued or running for them in the last hour and the new one are within the quota |
| `Quotas.FinishBetweenReads` | quotas.py:53-75 | a run that exceeds the quota for no other reason than that an ingestion finishes between the two reads |
| `Quotas.RetryIsNotCounted` | quotas.py:68-71 | a run that exceeds it for no other reason than that a retried ingestion is not counted |
| `Quotas.OverdueIsNotCounted` | quotas.py:68-71 | a run that exceeds it for no other reason than that an ingestion outlived the window |
| `Quotas.UnsharedStays` | jobs.py:89-132 | no two sessions ever share a dataset unless some did to begin with |
| `Quotas.SharedIsCountedOnce` | quotas.py:55-63 | a run that exceeds it for no other reason than that two sessions share a dataset, as they do from the start |
| `Quotas.Workspace.ReclaimEmptySessions` | quotas.py:78-95 | deletes the oldest sessions without a dataset that were not touched within the window, as many as needed or as there are; every session with a dataset, or touched within the window, stays as it is |
| `Quotas.Workspace.CreateSessionWithQuota` | quotas.py:98-127 | succeeds exactly when there is room or enough sessions without a dataset are older than the window; every other session stays as it is, and a refusal changes nothing |
| `LongFormat.UniqueIsIdentifies` | modules/long_format.py:49-54 | the SELECT DISTINCT count test holds exactly when the columns tell any two rows apart |
| `LongFormat.MoreColumnsIdentify` | modules/long_format.py:49-54 | adding columns keeps rows apart |
| `LongFormat.ReduceKey` | modules/long_format.py:89-101 | in whatever order columns are visited, the key left identifies every row and fails without any one column |
| `LongFormat.NoSmallerKey` | modules/long_format.py:95-101 | no smaller non-empty part of the key identifies the rows either |

## Left out

- Creating a checkout: reuse and expiry of pending checkouts and the provider's reply are not modelled; only the pending row it leaves is (`StartCheckout`).
- Signature checks, payload digests, `provider_session_id`, `updated_at` and reason texts of the billing and auth tables.
- Payment rows are outside `Isolation` and the convergence results: at equal times the last writer decides.
- BillingConvergence.TimeAndStatusConverge: compares uninterrupted deliveries; `BillingInterleaved.RunsConverge` covers the interleaved ones. Reconciliation in between is excluded from both, as it changes a status without an event.
- BillingInterleaved.RunsConverge: excludes writes to a row that has changed since the decision, after which the last writer decides column by column.
- BillingConvergence.PlanConvergesExactlyWhenSettled: the deliveries compared are all handled at one time.
- BillingOrder.LateEventsNeverAlterReplacement: a checkout-completed event without status is excluded, because it may still fill in an absent customer id.
- CompareSearch.CompareResults: rows are rectangular and numbers are finite reals; beyond 5000 maps the verdict is stated relative to the maps searched.
- RedisBudget.CapHolds: one UTC day on one backend; falling back to the database in mid-request changes the ledger and is not modelled, and neither are the expiry times of the keys.
- The Redis operations are steps of a state machine and not methods, because the program's own calls end where the network takes over.
- DbBudget.UserLimitHolds: creation of a user's row for the day is folded into the initial ledger, and the request counter is left out.
- SessionUpdate.EveryCommitIsAtomic: `updated_at` is not a field, and session ids are never reused.
- Loading of relationship pairs from older semantic layers, the ranking, and the use of the join path in a prompt.
- RetrievalCache.IndexCache.IndexFor: the weighting is an arbitrary function of the document texts and SHA-256 is taken to be collision-free; scoring and ranking are not modelled.
- JsonChunks.ReadTwoWays: the document's top level is an array; the branch for an object that wraps an array is not modelled.
- JsonText.ObjectPrefixStable: numbers stay text, a repeated key stays twice (the column limit counts it once, and only its last value is written), and the decoder's recursion limit is not modelled.
- Naming.NormalizeColumns: parser-generated headers are recognised by ASCII digits only; whether a column holds values is part of the input.
- Naming.TableNames: workbook and sheet names are taken after `safe_table_name`, which starts with a path operation; fewer than 100 million sheets, since beyond eight digits the cut would reach the suffix.
- SqlParams.ParameterizeLiterals: the tokenizer is not part of this model; a token list is any ordered list of disjoint spans, and the fallback for a text that cannot be tokenized is left out.
- CircuitBreaker.Breaker.Allow: the threshold is at least one; the emitted events and the snapshot are left out.
- AuthSessions.RefusalIsPermanent: user ids and session ids are never reused, users are not reactivated, and the clock does not go back; revoking the rows of a user and writing the new version are one step, the version it is computed from may be older.
- Quotas.QuotaHolds: a run in which a count falls short may still respect the quota; what is exact is stated for each count and each decision. The byte quota and a change of plan are left out.
- Job execution: only what creates, starts, retries and ends an ingestion is modelled, as steps that may happen at any time.
- LongFormat.ReduceKey: the choice of candidate columns and of the visiting order, the measures and the qualifier detection of `detect`.
- HTTP routes, rate limiting, e-mail, object storage, workers, prompts, the query planner, reports and configuration.
