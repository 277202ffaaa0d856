# A Dafny model of token_throttle

token_throttle limits how fast a program may call metered services. Each model family has token buckets, one
per metric and window. An acquire takes a reservation from all of them, and a refund later settles it for what was
really used. This project models the parts of that library whose correctness depends on many pieces agreeing,
and proves what they promise. `dafny verify dfyconfig.toml` checks everything.

All amounts, capacities and times are `real`; reservation ids, model aliases, families and metrics are opaque.

## What is modelled

**The reservation and close protocol** (`Bookkeeping`, `SyncRateLimiter`, `Protocol*`). `Protocol` is a step machine:
any number of acquire, refund, close, `set_max_capacity` and eviction calls, each with a program counter, interleaved
at every lock, backend call and wait. The sections that the program runs under `_acquire_guard` or
`_refund_state_lock` are pure functions in `Bookkeeping`; the class `SyncRateLimiter.Limiter` has the program's
fields, and each of its methods is proved to do exactly what the function says. A ledger records what the backend
debited and credited. The backend itself is abstract: its calls are atomic, may raise before or after their write, may
keep acquire markers, and may offer the "did the write land" probe (`Protocol.Config`, `ProtocolService.RepliesIff`).
The invariant is in `ProtocolInvariant`; `ProtocolFrames` and the three `Protocol*Steps` modules show that every step
keeps it. `ProtocolEffects` says what each kind of step may change at all; on it rest the results about where credits
come from (`ProtocolOutcomes`), which debits are lost (`ProtocolLosses`), about progress (`ProtocolProgress`) and
about the final shutdown (`ProtocolShutdown`). `ProtocolService` says what the limiter does serve: each decision as an
exact condition, acquires, refunds, maximum changes and closes that can go through from every reachable state;
`ProtocolClosing` says how closes fail.

**Configuration** (`ConfigRegistry`, `ConfigRebuild`, `PendingExclusion`). The constant-time consistency check
against a judgement on all aliases; runtime overrides through limit changes and rebuilds against the history of each
bucket; rebuilds against acquires that are under way, for asynchronous and threaded limiters and for backends that are
reconfigured in place or replaced.

**Token buckets** (`TokenBucket`, `BucketTheorems`, `MemoryBuckets`, `MemoryBackends`, `OverrideExpiry`,
`Retention`). The in-memory bucket object and the all-or-nothing backend, and two optimisations proved invisible
against them: Redis integrating across an expired override only at the next read, and persistent backends dropping
idle rows.

**The server clock** (`ServerTime`), **refund projection** (`RefundProjection`), **the `reserve()` scope**
(`ReserveScope`) and **diagnostics** (`Diagnostics`).

## Where the code does not do what one might expect

Each of these is proved, nearly all with a concrete input or run and the exact condition under which the expected
property holds.

- A reservation is credited at most once in every run if and only if the backend keeps acquire markers, or can be
  probed, or never raises after a write that landed (`ProtocolCredits.CreditedAtMostOnce`). The ledger is conserved in
  every run if and only if a landed write is always found out; markers alone do not give that
  (`ProtocolCredits.ConservationIff`).
- A pending acquire's debit lands in the buckets it captured in every run if and only if rebuilds in place cannot fail
  after they have changed the backend, and rebuilds that make a new backend meet a fast path that looks only once
  (`PendingExclusion.DebitsLandWhereCapturedIff`). In the asynchronous limiter, a rebuild of a memory backend that is
  cancelled while overrides are being restored puts the old snapshot back over the new buckets; in the threaded limiter a new
  backend object can be installed between the two reads of the fast path.
- When a blocking acquire raises with its debit in place, and the backend's clean-up refund failed critically or the
  backend does not record such failures, the limiter rolls the reservation back: it is debited, in nobody's hands, and
  stays charged. No run has that exactly when the backend records its failed clean-ups and none is critical
  (`ProtocolLosses.NoneLostIff`, `DebitIsLost`, `LostStaysCharged`).
- A critical error of an undelivered acquire's own refund is raised as it is: the reservation, debited, is handed to
  nobody, and no caller can ever refund it (`ProtocolOutcomes.AcquireEndsWell`, the stranded case).
- A `reserve()` block that outlives the reservation's lifetime ends closed and uncredited however well the backend
  works (`ReserveScope.ExpiredIsClosedUncredited`; one credit exactly when `CreditedOnceIff` says). When a refund lands
  unseen and the conservative fallback follows, the reservation is credited twice, and without a fallback it stays in
  flight although credited (`CreditedTwiceIff`, `UnseenLandingCreditsTwice`, `LeftInFlightThoughCreditedIff`).
- The registry stays consistent through a registration if and only if the alias has not been routed to another family
  between the routing check and the validation lock, and over a run exactly as long as no registration loses that race;
  two calls can lose it (`ConfigRegistry.RegisteringKeepsValidIff`, `RegistryStaysValidIff`, `RaceCanBeLost`).
- When restoring an override fails on a backend that is rebuilt in place, the old snapshot comes back over the new
  buckets. Limiter and backend agree after every run if and only if rebuilds do not change the backend in place
  (`ConfigRebuild.RebuildsAgreeIff`); the configuration that failed heals it, the old one does not
  (`AbandonedHealsByRetryOnly`). `RunsAgreeIff` has the condition for every kind of failure.
- When a limits-only change fails midway, the view is wrong unless every limit already applied was in force anyway. Retrying the
  same configuration heals it; going back to the old one never does (`ConfigRebuild.InterruptedAgreesIff`,
  `RetryHeals`, `GoingBackDoesNotHeal`).
- Acquiring and refunding in full never costs anything, over all later maximum changes, if and only if the bucket had
  been written before and held nothing above its maximum (`BucketTheorems.RefundRestoresIff`). It gains more than what was
  acquired exactly when, at the refund, the debt is deeper than the maximum then in force: the clamp forgives it
  (`BucketTheorems.RefundRestores`, `LoweringCanForgiveDebt`).
- An acquire that was waiting while a metric was added writes the added bucket back as at least zero, so a debt there is
  forgiven (`MemoryBackends.AllOrNothing`, the second branch).
- The Redis refresh script computes the deadline that the write computed, for every capacity the write accepts, if and
  only if the configured maximum is not above the one in force (`Retention.ScriptAgreesIff`; `ScriptFallsShort` has
  120 seconds for 360). It never shortens a deadline, so the one set by the write still stands.
- A close that has drained and then fails at the backend is the last one: no later close gets past its opening, so the
  backend is not closed again and what the limiter retains is never cleared
  (`ProtocolClosing.FailedBackendCloseIsFinal`; `ProtocolService.CloseGoesThrough` has the retry after earlier failures).
- `_pending_drained` may be clear while nothing is pending, as after an acquire refused for the cap; set, it does imply
  that nothing is pending or being delivered, and close recomputes it (`Bookkeeping.DrainedMayLag`,
  `ProtocolTheorems.BookkeepingAgrees`).

Two things to know when reading the code beside its documentation:

- Buckets of unknown refill rate sort after all known ones, so the primary bottleneck is the longest wait only when all
  rates are known.
- The documentation of `reserve()` says that a refund failure never masks the block's exception
  (token_throttle/_sync_rate_limiter.py:1221-1223); the code lets critical failures through, and the model follows the
  code (`ReserveScope.BodyExceptionIsKept`).

## Model

| member | source | states |
|---|---|---|
| `SyncRateLimiter.Limiter.BeginPendingAcquire` | token_throttle/_sync_rate_limiter.py:1457-1475 | Admits an acquire exactly when the limiter is open and the in-flight and pending reservations are fewer than the cap, or this is one of them; each refusal for its own reason; a refusal for the cap leaves the drained event cleared |
| `SyncRateLimiter.Limiter.FinalizePendingAcquire` | token_throttle/_sync_rate_limiter.py:1477-1493 | Moves the id from pending to in flight with its family and snapshot, makes the model the family's representative, touches the family and refreshes the event |
| `SyncRateLimiter.Limiter.RollbackPendingAcquire` | token_throttle/_sync_rate_limiter.py:1495-1500 | Removes every trace of the pending id and refreshes the event |
| `SyncRateLimiter.Limiter.BeginAcquireDeliveryCleanup` | token_throttle/_sync_rate_limiter.py:1502-1505 | Marks the id as being delivered and clears the event |
| `SyncRateLimiter.Limiter.EndAcquireDeliveryCleanup` | token_throttle/_sync_rate_limiter.py:1507-1519 | Ends the delivery; the event is set exactly when nothing is pending or delivered |
| `SyncRateLimiter.Limiter.RememberInFlightReservation` | token_throttle/_sync_rate_limiter.py:945-966 | The unlimited path: in flight at once, under exactly the same condition |
| `SyncRateLimiter.Limiter.ForgetInFlightReservation` | token_throttle/_sync_rate_limiter.py:968-973 | Forgets the id everywhere and leaves the event alone |
| `SyncRateLimiter.Limiter.RememberRefundState` | token_throttle/_sync_rate_limiter.py:1998-2002 | The eviction loop leaves the newest entry last, each id once, within the cap |
| `SyncRateLimiter.Limiter.CommitRefundState` | token_throttle/_sync_rate_limiter.py:2004-2008 | Records the commit, forgets the reservation and touches its family in one step |
| `SyncRateLimiter.Limiter.MarkRefundStateFailed` | token_throttle/_sync_rate_limiter.py:2010-2015 | Only a pending entry becomes failed; a committed one stays |
| `SyncRateLimiter.Limiter.ClearRefundStateIfPending` | token_throttle/_sync_rate_limiter.py:2017-2030 | Only a pending entry is removed; the reservation is forgotten when asked |
| `SyncRateLimiter.Limiter.MayEnterRefund` | token_throttle/_sync_rate_limiter.py:1850-1871 | The gate is open exactly when the limiter is, or for the refund of an undelivered acquire, and the reservation is neither refunded nor being refunded |
| `SyncRateLimiter.Limiter.EnterRefund` | token_throttle/_sync_rate_limiter.py:1850-1878 | Exactly then the refund is marked pending and in progress; else nothing changes |
| `SyncRateLimiter.Limiter.AuthoritativeReservationForRefund` | token_throttle/_sync_rate_limiter.py:975-982 | The acquire-time copy when there is one, whatever the caller claims |
| `SyncRateLimiter.Limiter.RegisterRefundLock` | token_throttle/_sync_rate_limiter.py:2102-2108 | Hands out the registered lock or a new one, and counts the reference |
| `SyncRateLimiter.Limiter.ReleaseRefundLockReference` | token_throttle/_sync_rate_limiter.py:2124-2136 | Drops the entry with its last reference, unless the entry is another lock's by now |
| `SyncRateLimiter.Limiter.OpenClose` | token_throttle/_sync_rate_limiter.py:1015-1022 | Finds a finished close, or blocks new work and recomputes the event |
| `SyncRateLimiter.Limiter.MarkClosedUnlessDrained` | token_throttle/_sync_rate_limiter.py:1030-1036 | Finds that an earlier close has drained and leaves everything, or makes the closed flag final |
| `SyncRateLimiter.Limiter.MarkLimiterClosed` | token_throttle/_sync_rate_limiter.py:1046-1050 | A close that fails leaves the limiter closed for good |
| `SyncRateLimiter.Limiter.ClearRetainedStateAfterClose` | token_throttle/_sync_rate_limiter.py:1097-1116 | Of the tables cleared there: empties the refund and lock tables, every record of a reservation, the representatives and the touch times, and leaves the flags alone |
| `Bookkeeping.RememberKeyed` | token_throttle/_sync_rate_limiter.py:1998-2002 | The dedup table holds an id at most once, never exceeds its cap, and ends with the newest id |
| `Bookkeeping.RememberIsNewest` | token_throttle/_sync_rate_limiter.py:1998-2002 | As many of the newest entries stay as the cap allows, with this one last |
| `Bookkeeping.WithoutInOrder` | token_throttle/_sync_rate_limiter.py:1998-2002 | Moving one id to the end leaves the others in their order |
| `Bookkeeping.DrainedMayLag` | token_throttle/_sync_rate_limiter.py:1457-1475 | A refusal for the cap can leave the event clear with nothing pending; close's recomputation sets it exactly when nothing is pending or delivered |
| `ProtocolTheorems.StepKeeps` | token_throttle/_sync_rate_limiter.py:995-1116 | Every possible step of every call keeps the whole protocol invariant |
| `ProtocolTheorems.RunsKeepInvariant` | token_throttle/_sync_rate_limiter.py:1370-2136 | The invariant holds after every run, whatever the interleaving |
| `ProtocolTheorems.BackendClosedOnceAndIdle` | token_throttle/_sync_rate_limiter.py:1024-1052 | The backend is closed at most once, and no backend acquire, refund or maximum write is running when that is decided |
| `ProtocolShutdown.NothingStartsAfterClose` | token_throttle/_sync_rate_limiter.py:1720-1739 | Whatever runs afterwards, including refunds of undelivered acquires, no backend work is ever running again |
| `ProtocolTheorems.BookkeepingAgrees` | token_throttle/_sync_rate_limiter.py:945-982 | In every reachable state pending and in flight are disjoint and within the cap, snapshots and families match them, and what is in flight keeps its acquire-time family, snapshot and backend |
| `ProtocolTheorems.OneRefundAtATime` | token_throttle/_sync_rate_limiter.py:1850-1889 | Two refunds of one reservation are never past the gate together, not even across a close that clears the lock table; one that may write is not shown as committed |
| `ProtocolService.AdmitsIffBelowCap` | token_throttle/_sync_rate_limiter.py:1457-1475 | In every reachable state a fresh valid acquire becomes pending exactly when the limiter is open and below its cap |
| `ProtocolService.AcquireGoesThrough` | token_throttle/_sync_rate_limiter.py:1370-1455 | From every such state with nobody in the limiter lock it can go through: it ends delivered, in flight as asked for, and has posted its one debit and nothing else |
| `ProtocolService.ReplyDecides` | token_throttle/_sync_rate_limiter.py:1428-1441 | After the backend's call: delivery, a reservation in flight inside an error, or a rollback, for which replies |
| `ProtocolService.CallbackDecides` | token_throttle/_sync_rate_limiter.py:1552-1583 | A callback that raises makes a blocking acquire give its reservation back, and recorded usage be forgotten |
| `ProtocolService.UndeliveredGetsRefund` | token_throttle/_sync_rate_limiter.py:1521-1540 | The refund of an undelivered acquire is for zero usage of the issued reservation, and allowed into a closed limiter if it is closed by then |
| `ProtocolService.CollectingDecides` | token_throttle/_sync_rate_limiter.py:1562-1577 | An undelivered acquire ends given back, handed over inside the error, or, when that was critical, stranded |
| `ProtocolService.EntranceDecides` | token_throttle/_sync_rate_limiter.py:1600-1623 | A refund goes on to its lock exactly when the limiter is open, and the reservation as issued is limited, unexpired and fits the usage |
| `ProtocolService.EntranceForgets` | token_throttle/_sync_rate_limiter.py:1600-1623 | At the entrance an open limiter forgets exactly unlimited and expired reservations |
| `ProtocolService.GateAdmitsIff` | token_throttle/_sync_rate_limiter.py:1850-1878 | A refund at the gate passes exactly when the limiter is open or it is that of an undelivered acquire, and the reservation is neither refunded nor being refunded |
| `ProtocolService.CallsIff` | token_throttle/_sync_rate_limiter.py:1879-1922 | It reaches the backend exactly when its family has one and the reservation is in flight or the backend keeps markers |
| `ProtocolService.AnswerCloses` | token_throttle/_sync_rate_limiter.py:1942-1961 | Which answers close the reservation: success, duplicate, an unknown one to be forgotten, an error after which the bucket state has changed |
| `ProtocolService.AnswerMoves` | token_throttle/_sync_rate_limiter.py:1942-1966 | Success alone is announced; every other answer goes to the outer handler |
| `ProtocolService.HandlerDecides` | token_throttle/_sync_rate_limiter.py:1967-1978 | The outer handler records the refund exactly when the bucket state has changed, and the refund raises |
| `ProtocolService.RefundGoesThrough` | token_throttle/_sync_rate_limiter.py:1584-1996 | From every reachable state a refund of any fitting usage of what is open for it can go through, whatever copy of the reservation the caller shows: one credit against the issued reservation, which alone is forgotten |
| `ProtocolService.UnlimitedIsServed` | token_throttle/_sync_rate_limiter.py:2138-2173 | An unlimited acquire is in flight at once, exactly under the same cap |
| `ProtocolService.UnlimitedCallbackDecides` | token_throttle/_sync_rate_limiter.py:2157-2173 | An unlimited reservation whose callback raises is forgotten and not delivered |
| `ProtocolService.SetMaxDecides` | token_throttle/_sync_rate_limiter.py:1700-1739 | A maximum change is refused exactly while the limiter is closing or closed, at its start and again under the lifecycle lock |
| `ProtocolService.SetMaxGoesThrough` | token_throttle/_sync_rate_limiter.py:1720-1739 | From every reachable open state with both locks free a maximum can be written |
| `ProtocolService.CloseGoesThrough` | token_throttle/_sync_rate_limiter.py:995-1116 | From every reachable state with nothing under way and no close completed a close can go through, also after one that failed: the backend is closed once and nothing is kept |
| `ProtocolService.FailedPreparationLeavesNoTrace` | token_throttle/_sync_rate_limiter.py:1967-1977 | A refund that fails before its backend call leaves the bookkeeping as it was and no pending entry of its own |
| `ProtocolService.InterruptionLeavesNoTrace` | token_throttle/_sync_rate_limiter.py:1967-1977 | The same when its wait for the limiter lock is interrupted |
| `ProtocolClosing.OpeningDecides` | token_throttle/_sync_rate_limiter.py:1018-1022 | A close returns at once exactly when an earlier one has drained and closed; else new work is blocked and the event recomputed |
| `ProtocolClosing.MarkingDecides` | token_throttle/_sync_rate_limiter.py:1029-1036 | Under the lifecycle lock only the clearing is left after an earlier drain; else the limiter is closed now |
| `ProtocolClosing.FailuresAreTerminal` | token_throttle/_sync_rate_limiter.py:1023-1050 | Timeouts, interruptions and backend errors all leave the limiter closed, nothing cleared and the lifecycle lock free |
| `ProtocolClosing.SuccessesGoOn` | token_throttle/_sync_rate_limiter.py:1037-1060 | A completed drain is recorded and leads to the backend, a closed backend to the clearing |
| `ProtocolClosing.FailedBackendCloseIsFinal` | token_throttle/_sync_rate_limiter.py:1018-1050 | Wherever a lone close can go through, its backend can fail instead, and then no close ever gets past its opening again: what is retained stays |
| `ProtocolService.EvictsIff` | token_throttle/_sync_rate_limiter.py:1140-1150 | Families are evicted exactly when none of them has a live reservation |
| `ProtocolProgress.EveryCallProgresses` | token_throttle/_sync_rate_limiter.py:1015-1095 | With interruptions and timeouts left aside, in every reachable state each call that has not ended can move or waits for a refund lock, the lifecycle lock, the limiter lock, the drained event or its own refund; everything it waits for can move or waits in turn, and no chain of waits is longer than five |
| `ProtocolProgress.OneInLimiter` | token_throttle/_sync_rate_limiter.py:2269-2278 | No two calls are ever in the limiter lock together, whether they look up, refresh or rebuild a backend |
| `ProtocolProgress.NoDeadlock` | token_throttle/_sync_rate_limiter.py:2094-2114 | A reachable state in which no unfinished call can move has no unfinished call |
| `ProtocolLedger.TotalIsSum` | token_throttle/_sync_rate_limiter.py:1942-1982 | Every backend posting belongs to exactly one issued reservation, so a bucket's total is the sum over reservations |
| `ProtocolLedger.Conservation` | token_throttle/_sync_rate_limiter.py:1392-1455 | In every reachable state, for each bucket, debits less credits are the reserved usage of what is in flight or being acquired plus the charge of everything closed, which for the recorded and the lost is all they reserved |
| `ProtocolOutcomes.AcquireEndsWell` | token_throttle/_sync_rate_limiter.py:1421-1455 | The step that ends an acquire leaves it as its result says: delivered means in flight, as issued, debited and uncredited; surfaced in an error or stranded means debited and, if its own refund landed, credited once in full, or else in flight as issued or forgotten; lost means debited, uncredited and not in flight |
| `ProtocolOutcomes.AcquireOutcomes` | token_throttle/_sync_rate_limiter.py:1428-1438 | In every later state: rolled back undebited, rolled back although debited, recorded without refund, given back in full exactly once, stranded with at most its own refund, or handed over with its one debit |
| `ProtocolLosses.NoneLostIff` | token_throttle/_acquire_recovery.py:43-66 | No blocking acquire is rolled back with its debit in place, in any run, exactly when the backend records its failed clean-up refunds and these never fail critically |
| `ProtocolLosses.DebitIsLost` | token_throttle/_sync_rate_limiter.py:1428-1438 | Otherwise there is a run that loses a debit |
| `ProtocolLosses.LostStaysCharged` | token_throttle/_sync_rate_limiter.py:1428-1438 | What is lost stays charged in full on every bucket it reserved, whatever runs afterwards; no refund of it exists or can start |
| `ProtocolOutcomes.CreditsWereCalledFor` | token_throttle/_sync_rate_limiter.py:1922-1941 | Every credit in the ledger was posted when a refund call was answered by the backend, with the scope, reservation and actual usage of that call |
| `ProtocolOutcomes.RunsKeepCalls` | token_throttle/_sync_rate_limiter.py:1922-1941 | Different credits of one reservation come from different refund calls |
| `ProtocolOutcomes.RefundsThatReturn` | token_throttle/_sync_rate_limiter.py:1953-1982 | A refund that returned credited its reservation once, for the usage it was given, validated against the acquire-time reservation, and left it out of flight |
| `ProtocolCredits.CreditedAtMostOnce` | token_throttle/_sync_rate_limiter.py:1850-1996 | Each reservation is credited at most once in every run exactly for backends with markers, a probe, or no raise after a landed write, however small the dedup table |
| `ProtocolCredits.UnseenCreditsRepeat` | token_throttle/_sync_rate_limiter.py:2032-2071 | Otherwise there is a run with any number of credits of one reservation |
| `ProtocolCredits.ConservationIff` | token_throttle/_sync_rate_limiter.py:1964-1977 | Conservation holds in every run exactly when a refund that raises after its write landed is always found out |
| `ConfigRegistry.Tables.ValidateSharedModelFamilyConfig` | token_throttle/_sync_rate_limiter.py:2414-2525 | The lock-free look, and under the lock the copied counts, conflict scan, representative rule and caps: the verdict is the judgement on all aliases, and the tables change exactly when a registration is accepted |
| `ConfigRegistry.CheckDecides` | token_throttle/_sync_rate_limiter.py:2446-2500 | Each verdict of the constant-time check is given exactly under its condition on the tables: cached, opposed by another alias, represented by another that has moved along, has gone astray or has not, and the caps |
| `ConfigRegistry.CheckRecords` | token_throttle/_sync_rate_limiter.py:2500-2525 | An accepted registration routes the alias and moves alias and family to the signature; any other check changes nothing |
| `ConfigRegistry.CheckKeeps` | token_throttle/_sync_rate_limiter.py:2500-2525 | After a check each family still has one signature, counted once per alias, within the caps |
| `ConfigRegistry.RegisteringKeepsValidIff` | token_throttle/_sync_rate_limiter.py:2390-2412 | A registration keeps the registry valid exactly when the alias has not been routed elsewhere meanwhile |
| `ConfigRegistry.ApplyKeepsIff` | token_throttle/_sync_rate_limiter.py:2401-2525 | Each step of interleaved calls keeps the registry invariant exactly unless it registers an alias that was routed elsewhere since the call looked |
| `ConfigRegistry.RegistryStaysValidIff` | token_throttle/_sync_rate_limiter.py:2401-2525 | Over every run of interleaved looks, checks, deliveries and evictions the registry invariant holds throughout exactly as long as no registration loses that race |
| `ConfigRegistry.RaceCanBeLost` | token_throttle/_sync_rate_limiter.py:2401-2525 | Two calls that look at a new alias for different families can both register it |
| `ConfigRegistry.AliasesKeepTheirFamily` | token_throttle/_sync_rate_limiter.py:2401-2411 | Over runs of interleaved calls no alias changes family short of eviction or a lost race |
| `ConfigRegistry.Tables.ClearUnusedModelFamilies` | token_throttle/_sync_rate_limiter.py:1140-1165 | Evicts exactly the idle families without live reservations, with their aliases, counts, backends, quotas and overrides |
| `ConfigRegistry.EvictIsExact` | token_throttle/_sync_rate_limiter.py:1149-1163 | Every alias of an expired family goes, with all that is kept of the family, and nothing else |
| `ConfigRebuild.FamilyTables.SyncBackendQuotas` | token_throttle/_sync_rate_limiter.py:2279-2388 | Which of unchanged, refused or failed build, failed restore, rebuilt, updated or failed update it is, and the resulting view, for backends changed in place or replaced; every way out leaves a snapshot again |
| `ConfigRebuild.OutcomeIsRight` | token_throttle/_sync_rate_limiter.py:2293-2388 | Each way out is taken exactly under its condition on the limits, the overrides and what fails |
| `ConfigRebuild.FamilyTables.SetMaxCapacity` | token_throttle/_sync_rate_limiter.py:1757-1832 | An override is recorded exactly when the backend acknowledges it or, asked after a failure, shows the value; the live maximum changes exactly when the write landed |
| `ConfigRebuild.FamilyTables.BakeOverrides` | token_throttle/_sync_rate_limiter.py:336-377 | The rebuild configuration carries an override exactly for buckets whose configured limit is unchanged |
| `ConfigRebuild.FamilyTables.RestoreOverrides` | token_throttle/_sync_rate_limiter.py:2559-2600 | Restores and remembers exactly the overrides of buckets whose configured limit is unchanged, or stops at one the backend refuses, with only such overrides restored |
| `ConfigRebuild.RestoringChangesNothing` | token_throttle/_sync_rate_limiter.py:336-377 | Baked limits and restored overrides agree bucket by bucket, so restoring changes no live maximum |
| `ConfigRebuild.LiveMaximumFollowsHistory` | token_throttle/_sync_rate_limiter.py:2279-2388 | In every state reached by harmless events, among them overrides that raise and changes that fail midway, a bucket's live maximum is the last override recorded since its configured limit last changed or it was last added, else its configured limit; failed configurations leave no trace, and eviction leaves nothing |
| `ConfigRebuild.RunsAgreeIff` | token_throttle/_sync_rate_limiter.py:2279-2388 | Over every run with failed builds, restores, limits-only changes and overrides, limiter and backend agree throughout exactly as long as each event is harmless: no restore fails in place, each limit applied before a failure was in force, each override is recorded as it took effect |
| `ConfigRebuild.ApplyAgreesIff` | token_throttle/_sync_rate_limiter.py:2279-2388 | Each event keeps the agreement exactly when it is harmless |
| `ConfigRebuild.RebuildsAgreeIff` | token_throttle/_sync_rate_limiter.py:2350-2364 | Where only rebuilds fail, they agree after every run exactly when rebuilds do not change the backend in place |
| `ConfigRebuild.AbandonedAgreesIff` | token_throttle/_sync_rate_limiter.py:2350-2364 | After a restore that failed the view still agrees exactly when the backend was not changed in place |
| `ConfigRebuild.AbandonedHealsByRetryOnly` | token_throttle/_sync_rate_limiter.py:2293-2294 | The configuration that failed heals the view when tried again; the old one looks unchanged and does not |
| `ConfigRebuild.OverrideAgreesIff` | token_throttle/_sync_rate_limiter.py:1757-1832 | After an override that may raise, records and live maximum agree exactly when a landed write is acknowledged or found out and an unlanded one is not mistaken for landed |
| `ConfigRebuild.InterruptedAgreesIff` | token_throttle/_sync_rate_limiter.py:2369-2388 | A limits-only change that fails midway keeps the view right exactly when each applied limit was in force anyway |
| `ConfigRebuild.RetryHeals` | token_throttle/_sync_rate_limiter.py:2369-2388 | The same configuration again ends where an undisturbed change would have |
| `ConfigRebuild.GoingBackDoesNotHeal` | token_throttle/_sync_rate_limiter.py:2293-2294 | The old configuration looks unchanged, and what was applied stays |
| `PendingExclusion.RunsKeepInvariant` | token_throttle/_rate_limiter.py:2757-2800 | Under safe settings no caller is past the fast path while another changes the bucket set, over all interleavings of builds, rebuilds, failures and evictions |
| `PendingExclusion.PendingAcquiresKeepTheirBuckets` | token_throttle/_rate_limiter.py:2679-2705 | From the fast path to its debit an acquire holds the installed backend, whose buckets are exactly the captured ones |
| `PendingExclusion.AcquireIsServed` | token_throttle/_rate_limiter.py:2679-2800 | From every idle state an acquire of any configuration can go through, whatever was installed before, with its debit in its own buckets |
| `PendingExclusion.RebuildRefusedIff` | token_throttle/_rate_limiter.py:2769-2782 | A change of the bucket set is refused exactly while another acquire is under way |
| `PendingExclusion.FailureLeavesSnapshot` | token_throttle/_rate_limiter.py:2782-2796 | A build, preparation or restoration that fails leaves the lock free, the snapshot from before in place and the installed backend where it was |
| `PendingExclusion.EveryRestIsIdle` | token_throttle/_rate_limiter.py:2769-2800 | Under safe settings, after any run and whatever failed in it, once every call has ended snapshot and installed backend belong together |
| `PendingExclusion.DebitsLandWhereCapturedIff` | token_throttle/_rate_limiter.py:2769-2800 | Every debit lands in the captured buckets, in every run, exactly under the two conditions on the backend and the fast path |
| `TokenBucket.RefusedFor` | token_throttle/_capacity.py:130-149 | A read is refused for a negative time, a maximum or a rate that is not positive, in this order; a missing half of the state is a fresh start |
| `MemoryBuckets.MemoryBucket.GetCapacity` | token_throttle/_limiter_backends/_memory/_bucket.py:68-77 | Reads the capped refilled level without changing anything, and fails only for a negative time |
| `MemoryBuckets.MemoryBucket.SetCapacity` | token_throttle/_limiter_backends/_memory/_bucket.py:79-99 | Writes level and time, floored at zero unless negatives are allowed |
| `MemoryBuckets.MemoryBucket.SetMaxCapacity` | token_throttle/_limiter_backends/_memory/_bucket.py:101-149 | Anchors the uncapped level at the old rate before the rate changes; refuses a value that is not positive |
| `TokenBucket.RunsKeepRawWithin` | token_throttle/_capacity.py:151-210 | Over any common run of acquires, consumption, refunds and maximum changes the order of two buckets is kept and their distance never grows, even above the maximum |
| `TokenBucket.RunsKeepReadWithin` | token_throttle/_capacity.py:206-213 | The same for what reads show, while the maximum is fixed |
| `TokenBucket.LevelAfter` | token_throttle/_limiter_backends/_memory/_sync_backend.py:886-913 | What each operation leaves, in terms of what a read found before: nothing lost or made up within the bounds, overuse charged up to one maximum, consumption down to minus the maximum |
| `BucketTheorems.RefundRestoresAtFixedMaximum` | token_throttle/_interfaces/_interfaces.py:266-277 | At a fixed maximum, acquiring u and refunding it, with anything in between, leaves between what never acquiring leaves and u more |
| `BucketTheorems.RefundRestores` | token_throttle/_limiter_backends/_memory/_sync_backend.py:886-913 | With maximum changes in between, the lower bound holds for a bucket showing all it holds, the upper one exactly when the debt is within the maximum at the refund |
| `BucketTheorems.RefundRestoresIff` | token_throttle/_limiter_backends/_memory/_bucket.py:115-119 | Never costing anything over all later runs holds exactly when the bucket had been written and held nothing above its maximum |
| `BucketTheorems.LoweringCanForgiveDebt` | token_throttle/_limiter_backends/_memory/_sync_backend.py:899-906 | A run in which the clamp to minus a lowered maximum forgives 30 |
| `BucketTheorems.ImmediateRefundIsExact` | token_throttle/_interfaces/_interfaces.py:266-277 | With nothing in between, refunding in full reads exactly as never acquiring, at every later time |
| `BucketTheorems.ReadAfterChanges` | token_throttle/_limiter_backends/_memory/_bucket.py:101-149 | After any list of maximum changes a read is the final maximum capping what was stored plus the sum of each rate times its own interval |
| `BucketTheorems.LoweringThenRaisingCostsOnlyRefill` | token_throttle/_limiter_backends/_memory/_bucket.py:115-119 | Lowering the maximum and raising it again later costs exactly the difference in refill while it was low; what was held above the low maximum is back |
| `BucketTheorems.LoweringThenRaisingLosesNothing` | token_throttle/_limiter_backends/_memory/_bucket.py:115-119 | At one instant it costs nothing |
| `BucketTheorems.ResettingIsInvisible` | token_throttle/_limiter_backends/_memory/_bucket.py:101-149 | Setting the maximum to what it is changes no read after any later run |
| `BucketTheorems.AdmissionBound` | token_throttle/_capacity.py:151-210 | Over any consecutive part of any run at a fixed maximum, grants less credits are at most one full bucket plus the refill of every forward move of the clock |
| `BucketTheorems.AdmissionOverTime` | token_throttle/_capacity.py:206-210 | With a clock that never goes back that is one full bucket plus the refill of the elapsed time |
| `MemoryBackends.MemoryBackend.TryAcquire` | token_throttle/_limiter_backends/_memory/_sync_backend.py:302-345 | A used metric without a bucket, else usage above some maximum, else too little now, else granted, each exactly under its condition; all buckets are written or none |
| `MemoryBackends.MemoryBackend.ConsumeCapacity` | token_throttle/_limiter_backends/_memory/_sync_backend.py:454-478 | Consumes unconditionally from every bucket, down to minus the maximum |
| `MemoryBackends.MemoryBackend.RefundCapacityForBuckets` | token_throttle/_limiter_backends/_memory/_sync_backend.py:880-923 | Writes only scoped buckets, clamped to plus and minus the maximum |
| `MemoryBackends.AllOrNothing` | token_throttle/_interfaces/_interfaces.py:193-238 | A granted acquire takes its usage from every bucket of its metrics, a refused one changes nothing |
| `MemoryBackends.RecordsConsume` | token_throttle/_limiter_backends/_memory/_sync_backend.py:454-478 | Recorded usage is taken from every bucket of its metrics down to minus the maximum, and from no other; a refusal changes nothing |
| `MemoryBackends.ReturnsSettle` | token_throttle/_limiter_backends/_memory/_sync_backend.py:880-923 | A refund gives each scoped bucket reserved less actual within its bounds, overuse charged up to one maximum; a refusal changes nothing |
| `MemoryBackends.ProjectedIsARun` | token_throttle/_limiter_backends/_memory/_sync_backend.py:302-345 | Inside a run of the backend each bucket sees a run of its own in which every acquire found what it took |
| `MemoryBackends.BackendAdmissionBound` | token_throttle/_interfaces/_interfaces.py:193-238 | The admission bound holds at once for every metric and window |
| `OverrideExpiry.LazyLevelIsCalculated` | token_throttle/_limiter_backends/_redis/_override_expiry.py:143-176 | The level used below is what `calculate_with_expiry` returns |
| `OverrideExpiry.OrdinaryRead` | token_throttle/_limiter_backends/_redis/_override_expiry.py:104-176 | Without an expiry between write and read the amount is what was written, refilled at the rate of the maximum in force and capped by it |
| `OverrideExpiry.ReadOrdinarily` | token_throttle/_limiter_backends/_redis/_override_expiry.py:143-176 | A bucket object of the maximum in force then reads the same |
| `OverrideExpiry.CloseInNumbers` | token_throttle/_limiter_backends/_redis/_override_expiry.py:117-122 | Which configured limits count as the same: within one part in 10^12 of the larger |
| `OverrideExpiry.RefusedRead` | token_throttle/_limiter_backends/_redis/_override_expiry.py:156-166 | A read is refused exactly for a negative time or a maximum in force that is not positive |
| `OverrideExpiry.ReadEagerly` | token_throttle/_limiter_backends/_redis/_override_expiry.py:104-176 | A real bucket object whose maximum is set back at the instant of expiry reads what `calculate_with_expiry` computes, for every order of write, expiry and read |
| `OverrideExpiry.LazyRunsAreEager` | token_throttle/_limiter_backends/_redis/_override_expiry.py:104-176 | Over whole runs of operations before and after the expiry, the lazy and the eager form read alike |
| `OverrideExpiry.OverrideKeys.WriteOverride` | token_throttle/_limiter_backends/_redis/_override_expiry.py:17-55 | Which keys the script leaves: refused and failed saves change nothing, a failed second write puts the history back with its deadline unless that was due at once |
| `OverrideExpiry.OverrideKeys.RetainExpiry` | token_throttle/_limiter_backends/_redis/_override_expiry.py:57-62 | Extends an existing history to the longest deadline it saw, and creates none |
| `OverrideExpiry.HistoryOutlives` | token_throttle/_limiter_backends/_redis/_override_expiry.py:35-36 | The history outlives the override and every finite deadline of the accounting it explains, by no more than needed |
| `Retention.OrdinaryDebtFits` | token_throttle/_limiter_backends/_debt_ttl.py:16-33 | Debt down to minus the maximum needs no more than two windows, so the deadline is the configured one |
| `Retention.DebtTtlIsLeast` | token_throttle/_limiter_backends/_debt_ttl.py:16-33 | The least whole number of seconds that is no shorter than the configured lifetime and repays the debt at the slower maximum with a window to spare; refused when out of reach |
| `Retention.PositiveKeepsConfigured` | token_throttle/_limiter_backends/_debt_ttl.py:16-33 | Without debt the deadline is the configured one |
| `Retention.IdleIsFull` | token_throttle/_limiter_backends/_debt_ttl.py:16-33 | With one maximum a bucket idle past its deadline reads full |
| `Retention.PruningIsInvisible` | token_throttle/_limiter_backends/_sqlite/_ttl.py:161-171 | Dropping rows after their deadline changes no read over any run with a fixed maximum |
| `Retention.DebtIsRepaidAWindowEarly` | token_throttle/_limiter_backends/_debt_ttl.py:17-21 | However the maximum is switched above the smaller of the two, the debt is repaid one window before the deadline |
| `Retention.FullIfConstantAtTheEnd` | token_throttle/_limiter_backends/_debt_ttl.py:17-21 | If it is constant over that last window the bucket is full at the deadline |
| `Retention.LateSwitchIsNotFull` | token_throttle/_limiter_backends/_debt_ttl.py:17-21 | Switched up at the very deadline, the bucket holds only the old maximum where a dropped row would start full |
| `Retention.StateKeys.RefreshStateTtl` | token_throttle/_limiter_backends/_redis/_retention.py:22-41 | The script creates no key, shortens no finite deadline, keeps a finite history at least as long, and refuses debt it could not keep |
| `Retention.ScriptTtlIsLeast` | token_throttle/_limiter_backends/_redis/_retention.py:22-41 | The script's deadline is the least of that kind for the configured maximum alone |
| `Retention.ScriptFallsShort` | token_throttle/_limiter_backends/_redis/_retention.py:22-41 | An override of 1 under a configured 100: the write keeps a debt of 5 for 360 seconds, the script computes 120 |
| `Retention.ScriptAgreesIff` | token_throttle/_limiter_backends/_redis/_retention.py:22-41 | For a lifetime that covers two windows, the script's deadline is the one the write computed, for every capacity the write accepts, exactly when the configured maximum is the smaller |
| `Retention.ValidateBucketTtlCoversQuotaWindows` | token_throttle/_limiter_backends/_sqlite/_ttl.py:156-188 | Lists the offending quotas in order; none exactly when the lifetime covers two windows of every quota |
| `Retention.TooLongInOrder` | token_throttle/_limiter_backends/_sqlite/_ttl.py:156-188 | Two offending quotas are listed in the order in which they are configured |
| `Retention.AcceptedQuotasExpireInvisibly` | token_throttle/_limiter_backends/_sqlite/_ttl.py:156-188 | For every quota of an accepted configuration, ordinary debt leaves the deadline alone and dropping idle rows is never noticed |
| `ServerTime.ClientClockState.CheckForwardJump` | token_throttle/_limiter_backends/_redis/_server_time.py:207-293 | Moves the anchor before judging, never for a stale reading, with the judgement as a function of anchor and reading |
| `ServerTime.ClientClockState.MaybeWarnWallSkew` | token_throttle/_limiter_backends/_redis/_server_time.py:183-204 | Warns once per client, exactly on a skew beyond the threshold |
| `ServerTime.ClockRegistry.Check` | token_throttle/_limiter_backends/_redis/_server_time.py:226-247 | The first reading of a client sets its baseline; other clients' anchors stay |
| `ServerTime.AnchorIsNewest` | token_throttle/_limiter_backends/_redis/_server_time.py:241-247 | Whatever the reply order, the anchor is a processed reading and never behind any of them |
| `ServerTime.JumpsAreGrowth` | token_throttle/_limiter_backends/_redis/_server_time.py:249-266 | With one true local clock and a growing offset, the reports times ten seconds are less than the growth of the offset |
| `ServerTime.SteadyServerIsNeverReported` | token_throttle/_limiter_backends/_redis/_server_time.py:85-97 | Without growth nothing is ever reported, however slow the replies |
| `ServerTime.OneReportPerJump` | token_throttle/_limiter_backends/_redis/_server_time.py:256-262 | Each jump is reported at most once |
| `ServerTime.ReportedIff` | token_throttle/_limiter_backends/_redis/_server_time.py:249-293 | A reading is reported exactly when the offset grew by more than the threshold and the unseen parts of both round trips, on both clocks |
| `ServerTime.FirstReadingAfterAJumpIsReported` | token_throttle/_limiter_backends/_redis/_server_time.py:264-293 | With both clocks true, each by its own origin, a jump beyond the threshold and two round trips is reported on the first reading sampled after it |
| `ServerTime.OriginsMayDiffer` | token_throttle/_limiter_backends/_redis/_server_time.py:207-225 | Readings of an ordinary monotonic and an ordinary wall clock are among those |
| `RefundProjection.ValidateRefund` | token_throttle/_validation.py:323-351 | Accepts exactly usages over the metrics of known buckets with matching keys and no negative value, or nothing for no buckets |
| `RefundProjection.ProjectionIsAccepted` | token_throttle/_sync_rate_limiter.py:388-471 | Whatever the bucket set has become, the projected refund passes the backend's validator, reaches exactly the survivors, keeps their values, and is dropped exactly when there are none |
| `RefundProjection.NothingIsCut` | token_throttle/_sync_rate_limiter.py:388-471 | Nothing is cut while the bucket set is unknown or where every metric survives |
| `RefundProjection.RefundReachesSurvivors` | token_throttle/_sync_rate_limiter.py:1900-1960 | In the backend each surviving bucket is credited reserved less actual of its metric, and no other is touched |
| `ReserveScope.RefundDecides` | token_throttle/_sync_rate_limiter.py:1584-1623 | What the scope relies on: the order in which a refund call is refused, when it credits, and when the reservation stays in flight |
| `ReserveScope.Scope.Enter` | token_throttle/_sync_rate_limiter.py:2760-2773 | A scope is entered once; a second entry acquires nothing |
| `ReserveScope.Scope.Exit` | token_throttle/_sync_rate_limiter.py:2775-2804 | The exit's refund attempts and how the statement ends, as one function of what each attempt meets: closed, expired, invalid, a failure before or after the write, a landing unseen |
| `ReserveScope.Scope.SetActualUsage` | token_throttle/_sync_rate_limiter.py:2749-2758 | Keeps the last value given |
| `ReserveScope.CreditedOnceIff` | token_throttle/_sync_rate_limiter.py:2775-2839 | Against a working backend a scope credits its reservation once, with the given usage exactly when that is valid and the first attempt meets an open limiter and an unexpired reservation, else with the reserved usage exactly when a fallback meets them; otherwise not at all |
| `ReserveScope.ClosedIff` | token_throttle/_sync_rate_limiter.py:2775-2839 | Against a working backend the exit closes the reservation exactly when the limiter is open at the first attempt, unless that ends at invalid usage, or at the fallback |
| `ReserveScope.ExpiredIsClosedUncredited` | token_throttle/_sync_rate_limiter.py:2175-2196 | A block that outlives the reservation's lifetime ends closed and uncredited, however well the backend works |
| `ReserveScope.CreditedTwiceIff` | token_throttle/_sync_rate_limiter.py:2806-2888 | Whatever fails, at most one credit exactly unless a landing that went unseen is followed by a fallback that lands too; then exactly two |
| `ReserveScope.UnseenLandingCreditsTwice` | token_throttle/_sync_rate_limiter.py:2806-2839 | A scope of one token with such a backend is credited twice |
| `ReserveScope.LeftInFlightThoughCreditedIff` | token_throttle/_sync_rate_limiter.py:2841-2888 | After the exit the reservation is in flight although credited exactly when its last landing went unseen |
| `ReserveScope.BodyExceptionIsKept` | token_throttle/_sync_rate_limiter.py:2841-2888 | The block's exception is replaced by a critical refund error and by nothing else: exactly when the first attempt to reach the backend, or the fallback after it, meets one |
| `ReserveScope.NormalExitReports` | token_throttle/_sync_rate_limiter.py:2793-2839 | A normal exit is silent exactly when given usage was settled and warns exactly when none was given; a closed limiter, an expired reservation and invalid usage always reach the caller unless a critical error replaces them |
| `ReserveScope.UnlimitedExit` | token_throttle/_sync_rate_limiter.py:2775-2888 | The scope of an unlimited reservation forgets it, credits nothing and raises nothing of its own unless the limiter is closed |
| `Diagnostics.WaitBucketDiagnostics` | token_throttle/_diagnostic.py:553-596 | Lists exactly the blocked buckets, each once, longest known wait first |
| `Diagnostics.WaitBucketIsRight` | token_throttle/_diagnostic.py:553-596 | A blocked bucket's line says what it holds and lacks, and the time in which its rate makes that up |
| `Diagnostics.PrimaryIsLeastWait` | token_throttle/_diagnostic.py:599-625 | The primary bottleneck's expected refill is exactly the least idle wait after which the whole acquire would be granted |
| `Diagnostics.ReservationRows` | token_throttle/_diagnostic.py:683-735 | One row for every reservation in any of the three sets, with its state, family, usage, age and issue time |
| `Diagnostics.ReservationRow` | token_throttle/_diagnostic.py:693-735 | A row's state, family, usage, age and issue time, each from the set or table it comes from |
| `Diagnostics.RowsMatchBook` | token_throttle/_diagnostic.py:683-725 | In a consistent bookkeeping each row state is given exactly to its set, what is in flight shows its acquire-time family and usage, and only a reservation neither pending nor in flight can lack a family |
| `Diagnostics.ReservationGroups` | token_throttle/_diagnostic.py:741-749 | Each group collects exactly the rows of its family, metric and state |
| `Diagnostics.MembersAreRows` | token_throttle/_diagnostic.py:745-749 | A group's rows are those of its family, metric and state, each as often as it occurs |
| `Diagnostics.GroupFigures` | token_throttle/_diagnostic.py:752-780 | A group's count, total, and the ids of its first hundred rows in the order of issue, marked when there are more |
| `Diagnostics.RowOrderIs` | token_throttle/_diagnostic.py:753-756 | The rows of a group ascend by issue time, then by id, those of unknown issue time last |
| `Diagnostics.AllIsTheSumOfStates` | token_throttle/_diagnostic.py:738-780 | Every "all" group's count and usage are the sums of its per-state groups |
| `Diagnostics.DescribeGroups` | token_throttle/_diagnostic.py:751-790 | Lists every group that has rows exactly once, in order, with its count, usage, oldest age and the first hundred ids by issue time |
| `Diagnostics.GroupOrderIs` | token_throttle/_diagnostic.py:781-800 | Groups ascend by family, then metric; within these all rows, pending, in flight, delivery clean-up |
| `Diagnostics.OldestIsOldest` | token_throttle/_diagnostic.py:753-775 | The reservation reported as oldest is in the group, none was issued earlier, and its age is the group's oldest age |
| `Diagnostics.ReconcileBuckets` | token_throttle/_diagnostic.py:804-889 | Every bucket of the union of quotas and backend results comes out exactly once, in order, with the overrides in force listed beside them, and the issues name exactly the one-sided buckets and differing overrides |
| `Diagnostics.KeyOrderIs` | token_throttle/_diagnostic.py:866-868 | The listed buckets ascend by family, metric and window |
| `Diagnostics.LatestWins` | token_throttle/_diagnostic.py:810-815 | Of several backend results for one bucket the last one counts |
| `Diagnostics.ReconciledIsRight` | token_throttle/_diagnostic.py:892-955 | Whose override counts: the backend's, else the limiter's, unless a SQLite bucket that was read shows none; they differ when both count and are not close |
| `Diagnostics.UnreturnedIsRight` | token_throttle/_diagnostic.py:824-848 | A configured bucket the backend did not return is reported as missing, under the limiter's override or else its limit |
| `Diagnostics.ShownIsListed` | token_throttle/_diagnostic.py:870-889 | Every bucket that shows an override is listed with the gap to what is configured |
| `Diagnostics.ListedIsShown` | token_throttle/_diagnostic.py:868-887 | And every override listed is that of such a bucket, with its own figures |
| `Diagnostics.OverrideShownIff` | token_throttle/_diagnostic.py:870-887 | A reconciled bucket shows an override exactly when one is in force on either side, and it is then its effective maximum |

## Left out

- Floating point: rounding, overflow, infinities, `nextafter` and the `Decimal` fallback of `accrue_with_expiry`; amounts are `real`.
- Callbacks, their timeouts, context variables, warnings and logging: a lifecycle callback may raise, and that is all. Warnings raised as errors are not modelled.
- The data-transfer classes and their validation, metric and model names as strings, length caps on names, and config-getter errors outside the registry.
- Whose refunds are possible: callers refund reservations that were handed to them, or ids this limiter never issued.
- `_forget_in_flight_reservation` as five separate discards: it is one step, as are the other sections that run without their own lock.
- Interrupts between two bytecodes of one section; interruption is modelled at waits, backend calls and callbacks.
- In `Protocol`, the bucket sets of the backends installed under the limiter lock: those are `PendingExclusion` and `ConfigRebuild`. Marker expiry in the backend is left out too.
- `Protocol.AcquireReply`: the clean-up refund inside a blocking backend call is part of that call, and one that lands and still raises, so that the reservation surfaces in flight although it was given back, is not modelled.
- The validation lock, the acquire guard and the refund-state lock as holders: nothing is waited for inside them, so each of their sections is one step. Config getters that call back into the limiter are left out.
- The Redis and SQLite backend classes, and the SQLite rule that overrides live in shared rows: only the scripts and formulas named above are modelled.
- The memory backend's buckets are values in a map, so that aliasing of one bucket object between two backends is not captured; the single bucket is an object.
- The memory backend's acquire markers and replay detection, waiting and sleeping: a wait is a sequence of attempts.
- `Retention.StateKeys.RefreshStateTtl`: a capacity that does not parse as a number is not modelled.
- `ServerTime`: parsing of the TIME reply, and the rejection of pipelines.
- `diagnose()` input and output, and backend health counters.
- `Diagnostics.DescribeGroups`: a reservation without a known family is grouped under no family and sorted last, where the code uses the name "unknown" and sorts it among the others.
- `ProtocolProgress.EveryCallProgresses`: that a call ends also needs its backend calls and callbacks to return and a fair scheduler; and a close that drains may take the refund locks in any order, where the code takes them in the order of the table.
- `Protocol.Config.probes` means that every landed refund shows in the bucket state read back. The code's signature cannot change for a refund with an empty scope, or one that meets only full buckets at one clock reading; such a landing is as unseen as with a backend that cannot be probed.
- OpenAI helpers, factories, token counting, preflight, the conformance suite and benchmarks: wrappers, or only easy members.
