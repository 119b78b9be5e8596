# Commission backend: models and proofs

A Dafny model of the parts of the rebate backend that move money, share Redis keys between processes, or run a real
algorithm, together with proofs over every input, run or interleaving. `dafny verify dfyconfig.toml` checks it all.

**The commission ledger** (`Wrappers`, `Sums`, `LedgerTables`, `LedgerInvariant`, `LedgerSteps`, `LedgerRuns`,
`LedgerEntries`, `LedgerExactly`, `LedgerOrderly`, `LedgerFaults`, `LedgerStore`). Two pipelines may pay the same
order. One freezes a commission and later unfreezes it; the other pays at once and takes back on refund.
`LedgerStore.Ledger` is the store with its transactions, each of which commits completely, is rejected, or is rolled
back, and with the checks the services make before them. A service call is two steps, its check and later its
transaction, so in a run of `LedgerRuns` calls overlap in any way; only freezing and unfreezing hold an operation lock
per order. Orders arrive with any status, and the channel sync writes any status at any time. A refund carries the
transfer status its session read, because the transaction does not read the flow again. Money is integer cents, row
ids are positions in order of creation, and `posted` records the order in which postings were committed. The
settlement states SETTLABLE, SETTLED and PAID are called `Confirmed`, `Unfrozen` and `PaidOut`; the transfer states
PENDING, SUCCESS and FAILED are `InFlight`, `Success` and `Failed`.

Every such run keeps frozen balances equal to the confirmed settlements, balances non-negative, versions equal to the
commits, and per user a chain of postings from zero to the available balance; an unfreeze never lacks frozen balance.
`LedgerEntries` says what a commit leaves in the rows: each flow records the balance before and after it, a call is
refused exactly when it would take more than there is, and the refund of a flow generated beside the pipelines takes
nothing from an account. What does not hold in every run has its exact condition (`LedgerExactly`):

- Available balances are ORDER successes minus deductions if and only if no refund commits that saw in flight what had
  been paid by then. Otherwise they are that plus exactly what was posted and later marked FAILED.
- Every order is paid and deducted at most once, each deduction taking back what had been paid, if and only if every
  call was due when it committed. An order has at most as many DEDUCT flows as refunds of it overlapped.

`LedgerOrderly` adds three hypotheses: statuses follow the transition table, nothing else happens to an order while a
call on it is under way, and no flow is generated beside the pipelines. Then what is checked before the call is what
is due: everything is paid once if and only if every payment met the condition of the payment work list and every
refund met the pre-validation of `execute_refund_deduction`; available balances are the successes; and a frozen
settlement can be released by some continuation if and only if its order is settlable or settled. Without the table
every frozen settlement can be released. `LedgerFaults` shows each fault at a reachable state:

- The single-order payment stops only at a SUCCESS flow. While the flow of a freeze is in flight it can be repeated
  any number of times, and the unfreeze then pays once more.
- `process_single_refund` does not look at the transfer status, so a flow already marked FAILED is taken back from
  money other orders paid, and a due refund may then be turned down.
- Overlapping payments that all met the work list's condition all commit, and overlapping refunds all deduct.
- An unfreeze and a refund that overlap can pay an order and mark its flow FAILED without taking anything back.

**The lease lock** (`LockValue`, `Jitter`, `LeaseLock`). Acquire and release are atomic scripts; a renewal is GET, SET
without a TTL, and EXPIRE with jitter, each a step of its own. Crashes and clock ticks may come anywhere, and clients
may send stale clock readings. `RedisKey` holds text, reads it the three ways the code does, and is proved to do what
the protocol's steps say. Mutual exclusion holds for names without a colon when renewals write only to a key that is
not another's with a running lease; renewals that are in time do that. For a late SET and a late EXPIRE the exact
condition is proved, with runs that break exclusion by a late SET, by a late EXPIRE alone, or by a colon in a name. A
granted lease runs for its whole term exactly when the reading sent along was at most a second old. The half-term
renewal loop keeps the lock, and no lock outlives its stamp, even with a TTL stripped by a crash.

**Limiters and breaker** (`SlidingWindow`, `TokenBucket`, `CircuitBreaker`). A sliding-window check is two pipelines,
so the model lets checks overlap: `c` overlapping checks admit up to `limit - 1 + c` per window, which is `limit` for
`c = 1`, and that number is attained. Stamps are whole seconds, so in real time the bound is good for `window - 1`
seconds; in any longer interval twice the limit can be admitted. Key expiry changes no decision of either limiter. A
token-bucket check is refused exactly when admitting it would exceed, counted from some earlier check, the capacity
plus the refill since, so a full bucket admits a burst of its whole capacity. The breaker model has all three jittered
TTLs, lets Redis drop any key at any time, and lets a process die while it opens the breaker. Left alone for the
longest TTL it always admits again if and only if its state key is not OPEN without a TTL, which is what such a death
leaves; and such a breaker can recover by itself if and only if an opening time from before outlasts its recovery
time. A question once answered yes stays answered yes until an outcome is recorded, and without that question the
breaker may refuse again.

**Algorithms** (`FloodFill`, `MenuTree`, `OrderUpsert`, `FeeTiers`, `Text`, `PermissionLookup`, `SumCache`). The flood
fill ends with exactly the dark pixels connected to the border; the menu forest is right even when rows form parent
cycles; batch insertion with its fallback is row-by-row insertion, whatever others insert before the batch and before
each row; tiers written as rows in any order, among unusable rows, are read back as they were and charge alike, and a
larger amount is never charged less if and only if the fee drops at no tier boundary; the permission lookup finds the
longest whole-segment prefix, and slashes at the end of a path hide its own entry and change nothing else; the cached
sum is exact under writes that do not move a flow away from another order, and the lemmas say exactly which moves
break it. In `SumCache` the ledger transactions appear as `Create` (a new flow) and as `Update` with nothing changed
that the sum reads (a flow's transfer status).

Where the code and its comments differ the code was followed. The comment beside the prefix loop says that at least
`/api/v1/admin` is kept, but the loop also tries `/api/v1` (`backend/src/common/b15_rbac_middleware.py:195`).
`generate_commission_flows` documents that the order must be settlable and does not check it. The documented fee tiers
drop at one of their two boundaries: nothing changes at 1000, but 10000 is charged less than 9999.99
(`FeeTiers.DocumentedTiersDropOnce`).

## Model

| member | source | states |
|---|---|---|
| LedgerStore.Ledger.constructor | backend/src/dao/settlement_atomic_dao.py:265-306 | the empty ledger satisfies the invariant |
| LedgerStore.Ledger.GetOrCreateAccount | backend/src/dao/settlement_atomic_dao.py:265-306 | a missing account is created at zero, an existing one is returned, no other account changes |
| LedgerStore.Ledger.FreezeAtomic | backend/src/dao/settlement_atomic_dao.py:48-159 | rejected exactly for a non-positive amount; committed means the freeze of the runs, otherwise every table is as before |
| LedgerStore.Ledger.UnfreezeAtomic | backend/src/dao/settlement_atomic_dao.py:163-261 | rejected exactly without a linked flow or enough frozen balance; committed means the unfreeze of the runs, rewriting the old flow in place; otherwise every table is as before |
| LedgerStore.Ledger.SettleOrderCommissionAtomic | backend/src/dao/commission_settlement_dao.py:200-284 | rejected exactly for a non-positive amount; committed means the payment of the runs; otherwise every table is as before |
| LedgerStore.Ledger.DeductOnRefundAtomic | backend/src/dao/commission_settlement_dao.py:288-387 | a flow that the caller read in flight is only marked failed, whatever it is by now; any other status is deducted and rejected exactly on overdraft; otherwise every table is as before |
| LedgerStore.Ledger.CreateGeneratedFlow | backend/src/services/commission_service.py:56-109 | adds an in-flight ORDER flow and touches no account |
| LedgerStore.Ledger.FindFirstFlow | backend/src/dao/commission_flow_dao.py:36-50 | the first ORDER flow of the order, or none when it has none |
| LedgerStore.Ledger.FindSettlement | backend/src/dao/settlement_record_dao.py:34-44 | a settlement of the order, or none when it has none |
| LedgerStore.Ledger.CheckFreeze | backend/src/services/commission_settlement_b12_service.py:121-151 | goes on exactly for a settlable order without settlement, and skips exactly a settlable one with a settlement |
| LedgerStore.Ledger.CheckUnfreeze | backend/src/services/commission_settlement_b12_service.py:244-264 | goes on exactly for the confirmed settlement of a settled order |
| LedgerStore.Ledger.CheckSettle | backend/src/services/commission_settlement_service.py:173-203 | goes on exactly for a settled order whose first ORDER flow is not SUCCESS |
| LedgerStore.Ledger.CheckRefund | backend/src/services/commission_settlement_service.py:340-375 | goes on exactly for a refunded order with an ORDER flow and no DEDUCT flow, in any transfer status, and hands over the status it read |
| LedgerStore.Ledger.CheckGenerate | backend/src/services/commission_service.py:74-85 | goes on exactly for an existing order without ORDER flow, in any status |
| LedgerStore.Ledger.Finish | backend/src/dao/commission_settlement_dao.py:200-387 | the transaction of a call under way ends and changes the tables as the step of the runs says |
| LedgerInvariant.FrozenCovers | backend/src/dao/settlement_atomic_dao.py:213-216 | a user's frozen balance is at least each of their confirmed settlements |
| LedgerInvariant.FailLoses | backend/src/dao/commission_settlement_dao.py:311-316 | marking a flow FAILED lowers the sum of successes by its amount exactly when it was successful |
| LedgerInvariant.NothingLostExactly | backend/src/dao/commission_settlement_dao.py:311-316 | nothing is lost to a user if and only if none of the user's postings is marked FAILED |
| LedgerSteps.ConfirmedIsCovered | backend/src/dao/settlement_atomic_dao.py:188-216 | a confirmed settlement has its flow and never exceeds the frozen balance |
| LedgerSteps.EffectKeepsTables | backend/src/dao/settlement_atomic_dao.py:48-261 | a transaction that its own checks accept keeps rows, postings and books, whatever happened since its check |
| LedgerSteps.EffectKeepsCall | backend/src/services/commission_settlement_b12_service.py:682-708 | and leaves what every other call under way relies on |
| LedgerSteps.OrdersKeepTables | backend/src/dao/order_sync_dao.py:208-264 | any status written to any order keeps them too |
| LedgerSteps.UnfreezeSafeExactlyWhenConfirmed | backend/src/dao/settlement_atomic_dao.py:188-232 | unfreezing that passes the balance check keeps them if and only if the settlement is still confirmed |
| LedgerRuns.NextKeepsInv | backend/src/dao/settlement_atomic_dao.py:48-261 | every step of any run, overlapping or not, keeps the invariant |
| LedgerRuns.AccountsReconcile | backend/src/dao/commission_settlement_dao.py:200-387 | after any run frozen is the confirmed settlements, total is both balances, the version counts the commits, and available is successes minus deductions plus what was posted and then marked FAILED |
| LedgerRuns.BalancesNeverNegative | backend/src/dao/commission_settlement_dao.py:200-387 | after any run no balance is negative |
| LedgerRuns.PostingsChain | backend/src/dao/settlement_atomic_dao.py:218-227 | after any run the postings of a user chain in commit order from zero to the available balance, each listed once and moving it by its own amount, every success among them |
| LedgerRuns.UnfreezeNeverRejected | backend/src/dao/settlement_atomic_dao.py:213-216 | in any run an unfreeze under way never fails the overdraft check, and an order has at most one settlement |
| LedgerEntries.BalancesRecorded | backend/src/dao/settlement_atomic_dao.py:98-132 | the flow a commit writes records the amount of the call and the user's available balance before and after it, as the postings tell it; a freeze records the same balance twice |
| LedgerEntries.RefusedExactly | backend/src/dao/settlement_atomic_dao.py:213-216 | checked before or not, a call is refused if and only if it would take more than the frozen or available balance, or freezes or pays no positive amount |
| LedgerEntries.AcceptedNeverOverdraws | backend/src/dao/commission_settlement_dao.py:336-344 | whatever was checked before, an accepted transaction leaves no balance negative |
| LedgerEntries.GeneratedRefundTakesNothing | backend/src/services/commission_service.py:87-109 | from every reachable state a generated flow of an order reported refunded is seen in flight and marked FAILED with the amount given, and no account changes |
| LedgerEntries.GeneratedOnce | backend/src/services/commission_service.py:74-85 | the check passes in every status, and with an ORDER flow there it never passes again in any run |
| LedgerEntries.PaidOutIsFinal | backend/src/config/b12_constants.py:196-206 | a settlement can be paid out exactly when unfrozen, which changes only its status, and no run changes it again |
| LedgerEntries.OrderLives | backend/src/config/b12_constants.py:52-71 | a history of statuses follows the table if and only if it is one of five lives or the beginning of one |
| LedgerEntries.SettlementLives | backend/src/config/b12_constants.py:196-203 | a settlement's history follows its table if and only if it begins the one life there is |
| LedgerExactly.SuccessesReconcileExactly | backend/src/dao/commission_settlement_dao.py:311-316 | available balances are successes minus deductions at the end of a run if and only if no refund committed that saw in flight what had been paid by then |
| LedgerExactly.EffectCleanExactly | backend/src/dao/commission_settlement_dao.py:200-387 | a commit leaves an order paid and deducted at most once, and every deduction covered, if and only if that was so and the call is due |
| LedgerExactly.CleanExactlyWhenDue | backend/src/dao/commission_settlement_dao.py:200-387 | the same for whole runs, with any overlap and any statuses written |
| LedgerExactly.DeductedAtMostOverlap | backend/src/services/commission_settlement_service.py:348-375 | an order has at most as many DEDUCT flows as refunds of it were under way at once |
| LedgerOrderly.NextKeepsOrderly | backend/src/config/b12_constants.py:52-71 | when statuses follow the table and nothing else happens to an order under a call, the check of every call still passes when it commits |
| LedgerOrderly.FreezeListedHasNoFlow | backend/src/dao/settlement_record_dao.py:87-108 | then an order on the freeze list has no flow of either pipeline |
| LedgerOrderly.DueIsValidated | backend/src/services/commission_flow_validation_service.py:377-385 | then a call is due if and only if it meets the payment list condition or the pre-validated status |
| LedgerOrderly.PaidOnceExactlyWhenValidated | backend/src/services/commission_settlement_service.py:182-206 | at the end of an orderly run successes account for every balance, and everything was paid and taken back once if and only if every committed payment was on the list and every committed refund validated |
| LedgerOrderly.AvailableIsRetained | backend/src/dao/commission_settlement_dao.py:336-358 | in a clean ledger the available balance is the sum of the successful ORDER flows whose order was not deducted |
| LedgerOrderly.RefundIsCovered | backend/src/dao/commission_settlement_dao.py:336-344 | so the refund of a successful, not yet deducted flow never overdraws |
| LedgerOrderly.GuardsNeverFire | backend/src/dao/commission_settlement_dao.py:336-344 | in orderly validated runs a validated call is rejected only for a non-positive amount |
| LedgerOrderly.DeductListNamesOneFlow | backend/src/dao/commission_settlement_dao.py:147-185 | in a clean ledger an order on the deduct list has exactly one ORDER flow, and its refund is allowed and validated |
| LedgerOrderly.DeductListedExactly | backend/src/dao/commission_settlement_dao.py:147-185 | in a clean ledger an order is on the deduct list if and only if the single refund of a successful flow of it passes its check |
| LedgerOrderly.NextOnlyResolves | backend/src/config/b12_constants.py:198-203 | an orderly step changes only in-flight flows and moves settlements only along their transition table |
| LedgerOrderly.ResolvedFlowsNeverChange | backend/src/dao/commission_settlement_dao.py:308-334 | in orderly runs a flow that succeeded or failed is never written again |
| LedgerOrderly.FrozenForever | backend/src/dao/settlement_record_dao.py:146-158 | a settlement still frozen when its order becomes invalid or refunded is released by no orderly continuation |
| LedgerOrderly.ReleasableExactly | backend/src/config/b12_constants.py:52-71 | a confirmed settlement is released by some orderly continuation if and only if its order is settlable or settled |
| LedgerOrderly.AnyStatusReleases | backend/src/dao/order_sync_dao.py:208-264 | when statuses need not follow the table, every confirmed settlement can be released from every reachable state |
| LedgerFaults.PaysManyTimes | backend/src/services/commission_settlement_service.py:182-206 | while the first flow of a settled order is in flight, the single-order payment can be repeated any number of times |
| LedgerFaults.PaidOnceMoreByUnfreeze | backend/src/services/commission_settlement_service.py:182-234 | from every state of an orderly run a fresh order can be paid any number of times and then once more by the unfreeze |
| LedgerFaults.RefundTakesUnpaid | backend/src/dao/commission_settlement_dao.py:311-363 | from every such state with enough available, an order never paid can be refunded twice: the second refund takes the amount while it also stays frozen |
| LedgerFaults.DueRefundTurnedDown | backend/src/dao/commission_settlement_dao.py:341-344 | that refund can leave nothing for the due refund of another order, which the overdraft check then rejects |
| LedgerFaults.FailedRefundReachable | backend/src/services/commission_settlement_service.py:323-375 | such an orderly run exists from the empty ledger, for any two orders and any amount |
| LedgerFaults.OverlappingPaymentsAllCommit | backend/src/services/commission_settlement_service.py:182-234 | any number of payments of one order can pass the work list condition before the first commits, and then all commit |
| LedgerFaults.OverlappingRefundsAllDeduct | backend/src/services/commission_settlement_service.py:348-375 | the bound by overlap is attained: that many refunds all pass their checks and all deduct |
| LedgerFaults.OverlapReachable | backend/src/services/commission_settlement_service.py:348-375 | for any number of refunds, from the empty ledger |
| LedgerFaults.StaleRefundKeepsPayment | backend/src/dao/commission_settlement_dao.py:311-316 | an unfreeze and a refund that overlap pay the order and mark its flow FAILED without taking anything back |
| LockValue.ReleaseTestMeaning | backend/src/common/lock_util.py:34-46 | the release script lets exactly those names delete a lock which, with a colon, are prefixes of the holder's name with a colon |
| LockValue.PlainNameMatches | backend/src/common/lock_util.py:34-46 | a name without a colon is matched by itself alone |
| LockValue.OnlyHolderReleases | backend/src/common/lock_util.py:34-46 | only the holder can release if and only if its name has no colon |
| LockValue.ReadersAgree | backend/src/common/lock_util.py:112-128 | renewal and takeover read back owner and stamp if and only if the name has no colon; with one, renewal never succeeds and takeover reads no number |
| LeaseLock.RedisKey.Acquire | backend/src/common/lock_util.py:13-31 | on the stored text: granted exactly when the key is gone or its stamp can be read and has passed; then owner, stamp and TTL are the new ones, otherwise nothing changes |
| LeaseLock.RedisKey.Release | backend/src/common/lock_util.py:34-46 | on the stored text: deletes exactly an unexpired lock whose holder the prefix test takes the caller for |
| LeaseLock.RedisKey.RenewalReads | backend/src/common/lock_util.py:112-119 | on the stored text: goes on exactly for the unexpired lock of the caller, if its name has no colon |
| LeaseLock.RedisKey.Set | backend/src/common/redis_client.py:75-93 | without an expiry it overwrites the value and drops the TTL |
| LeaseLock.RedisKey.Expire | backend/src/common/redis_client.py:135-140 | sets the deadline of whatever key is there |
| LeaseLock.NextKeepsInv | backend/src/common/lock_util.py:112-128 | each script, renewal command, crash or tick keeps the lease invariant when renewals write only to an unclaimed key |
| LeaseLock.MutualExclusion | backend/src/common/lock_util.py:13-46 | over every interleaving with plain names and such renewals no two owners have unexpired leases, the store names the one, and it is protected until its lease ends |
| LeaseLock.TimelyIsGuarded | backend/src/common/lock_util.py:112-128 | runs whose renewals finish before the lease they read lapses write only to an unclaimed key |
| LeaseLock.TimelyRunsExclude | backend/src/common/lock_util.py:112-128 | so no two owners have unexpired leases in them |
| LeaseLock.PutSafeExactly | backend/src/common/lock_util.py:120-122 | a late SET keeps exclusion if and only if its stamp has passed already or the key is unclaimed, and keeps the holder protected if and only if it is unclaimed |
| LeaseLock.ExpireSafeExactly | backend/src/common/lock_util.py:123-124 | a late EXPIRE keeps the holder protected if and only if the key is unclaimed or the new deadline does not cut the lease short |
| LeaseLock.LateRenewalBreaksExclusion | backend/src/common/lock_util.py:112-128 | for any two plain names and any term, a run in which one late renewal gives two owners unexpired leases |
| LeaseLock.LateExpireBreaksExclusion | backend/src/common/lock_util.py:122-124 | for any three plain names and any term of five or more, a run whose one SET is in time and whose late EXPIRE gives two owners unexpired leases |
| LeaseLock.ColonBreaksExclusion | backend/src/common/lock_util.py:34-46 | for any name with a colon, a run in which a late release by the owner of its first part gives two owners unexpired leases |
| LeaseLock.AcquiredLease | backend/src/common/lock_util.py:13-30 | a granted lease runs for its whole term exactly when the reading sent along was at most a second old |
| LeaseLock.RenewedLease | backend/src/common/lock_util.py:112-128 | a renewed lease runs for the TTL drawn, counted from the EXPIRE, and never beyond the stamp of its SET |
| LeaseLock.ColonLockLapses | backend/src/common/lock_util.py:16-30 | in any run a lock whose holder's name has a colon is never renewed and is granted exactly when its TTL has passed |
| LeaseLock.CrashIsFinal | backend/src/common/lock_util.py:112-128 | an owner that crashed leaves the key as it is and does nothing more in any run |
| Jitter.OffByAFifth | backend/src/common/redis_client.py:61-66 | the TTLs drawn are exactly the whole numbers off by a fifth at most |
| LeaseLock.HolderKeepsLock | backend/src/common/lock_util.py:16-30 | an owner refreshed less than T - T/5 ago has the lock and nobody else is granted it |
| LeaseLock.HalfTermIsAssured | backend/src/common/redis_client.py:61-66 | half a term is below the shortest jittered TTL, by at least 3T/10 |
| LeaseLock.PunctualHolderKeepsLock | backend/src/common/lock_util.py:207-210 | renewing every T/2 never loses the lock for any T and any jitter while each refresh takes less than 3T/20 |
| LeaseLock.NoLockIsForever | backend/src/common/lock_util.py:16-30 | in every reachable state, late or crashed renewals included, the stamp is at most T + 1 ahead, and an acquire is granted if and only if the TTL has passed or the clock it reads is beyond the stamp |
| SlidingWindow.RateKey.TrimAndCount | backend/src/common/rate_limit_util.py:29-34 | removes exactly the stamps that left the window and counts the others |
| SlidingWindow.RateKey.AddAndExpire | backend/src/common/rate_limit_util.py:38-41 | adds the stamp and restarts the TTL |
| SlidingWindow.RateKey.CheckSlidingWindow | backend/src/common/rate_limit_util.py:23-43 | admits exactly when get_remaining is positive, records the admission only then |
| SlidingWindow.RateKey.GetRemaining | backend/src/common/rate_limit_util.py:166-174 | answers the remaining allowance and changes no later answer |
| SlidingWindow.NextKeepsInv | backend/src/common/rate_limit_util.py:23-43 | each pipeline, overlapping or abandoned, keeps the key showing the recent history and the load below the cap |
| SlidingWindow.AdmissionsBounded | backend/src/common/rate_limit_util.py:23-43 | in any run any window of whole seconds has at most limit - 1 + overlap admissions, that is limit without overlap |
| SlidingWindow.DecisionIsHistory | backend/src/common/rate_limit_util.py:29-41 | the TTL never changes a decision: a check admits exactly when the admissions of the last window are below the limit, which is when get_remaining is positive |
| SlidingWindow.RealIntervalsBounded | backend/src/common/rate_limit_util.py:25-26 | the bound in real time holds for intervals of window - 1 seconds |
| SlidingWindow.LongerIntervalsExceed | backend/src/common/rate_limit_util.py:25-26 | for every limit and window, any longer interval can hold twice the limit |
| SlidingWindow.AdmitMany | backend/src/common/rate_limit_util.py:29-41 | at one instant any number of checks up to the limit are admitted one after the other |
| SlidingWindow.OverlapBoundAttained | backend/src/common/rate_limit_util.py:29-41 | for every limit, window and overlap, some run reaches limit - 1 + overlap admissions in one window |
| TokenBucket.BucketKey.Check | backend/src/common/rate_limit_util.py:109-135 | admits exactly when the refilled bucket holds a token, takes it only then, and always restarts clock and TTL |
| TokenBucket.CheckDouble | backend/src/common/rate_limit_util.py:92-106 | admits when both do, and charges each bucket whatever the other says |
| TokenBucket.ExpiryLeavesBucket | backend/src/common/rate_limit_util.py:109-135 | after every run the expiring bucket is the one that never expires |
| TokenBucket.ExpiryChangesNoDecision | backend/src/common/rate_limit_util.py:116-133 | expiry after floor(capacity / rate) + 1 seconds changes no verdict |
| TokenBucket.KeptUntilFull | backend/src/common/rate_limit_util.py:116-133 | the key is kept while the bucket fills up and gone a second later |
| TokenBucket.FoundIsLeastBudget | backend/src/common/rate_limit_util.py:118-122 | in any run a check finds at most the capacity plus the refill minus the admissions since any earlier check, and exactly that since one |
| TokenBucket.RefusedExactly | backend/src/common/rate_limit_util.py:118-135 | in any run a check is refused if and only if admitting it would exceed, from some check on, the capacity plus the rate times the time since |
| TokenBucket.AdmissionsBounded | backend/src/common/rate_limit_util.py:60-89 | admissions in any stretch of any run are at most capacity + rate times its length |
| TokenBucket.BurstAdmitted | backend/src/common/rate_limit_util.py:118-122 | a burst of capacity checks, however close, is admitted in full at first and after any pause that refills the bucket |
| TokenBucket.AdmittedAfterPause | backend/src/common/rate_limit_util.py:119-127 | 1 / rate after the previous check, however it went, one is admitted |
| TokenBucket.DoubleBounded | backend/src/common/rate_limit_util.py:92-106 | the double bucket obeys the smaller of both bounds |
| CircuitBreaker.Breaker.GetState | backend/src/cps/circuit_breaker.py:72-100 | answers the mode, and turns an open breaker half open exactly when its recovery time is over |
| CircuitBreaker.Breaker.AllowRequest | backend/src/cps/circuit_breaker.py:102-113 | refuses exactly when open |
| CircuitBreaker.Breaker.RecordSuccess | backend/src/cps/circuit_breaker.py:117-127 | closes and forgets count and opening time |
| CircuitBreaker.Breaker.RecordFailure | backend/src/cps/circuit_breaker.py:129-147 | reopens from half open without counting, otherwise counts and opens at the threshold |
| CircuitBreaker.Breaker.OpenUp | backend/src/cps/circuit_breaker.py:156-163 | state and opening time are both written, each with its own TTL |
| CircuitBreaker.Breaker.IncrFailCount | backend/src/cps/circuit_breaker.py:165-172 | counts on from the stored number or from zero |
| CircuitBreaker.Breaker.Reset | backend/src/cps/circuit_breaker.py:176-181 | leaves no key |
| CircuitBreaker.OpenNeedsFailures | backend/src/cps/circuit_breaker.py:129-147 | in every run, with keys lost at any time, a refusing breaker has recorded at least threshold failures with no success since |
| CircuitBreaker.FailuresTrip | backend/src/cps/circuit_breaker.py:129-147 | after any run, threshold failures with no success between, no key lost and less than the shortest TTL in all trip the breaker, which while open refuses until the recovery time has passed |
| CircuitBreaker.AdmitsAgainExactly | backend/src/cps/circuit_breaker.py:151-163 | after any run, with keys lost and openings torn at any time, every stretch of the longest state TTL without recorded outcomes ends admitting if and only if the state key is not OPEN without a TTL |
| CircuitBreaker.ForgottenExactly | backend/src/cps/circuit_breaker.py:151-172 | after any run the longest TTL in silence leaves nothing stored if and only if the state key is not OPEN without a TTL |
| CircuitBreaker.TornLeavesStuck | backend/src/common/redis_client.py:75-93 | a process that dies between the SET and the EXPIRE of any opening leaves OPEN without a TTL, the opening time as it was and the count of a whole failure |
| CircuitBreaker.StuckAdmitsExactlyWhenRescued | backend/src/cps/circuit_breaker.py:84-98 | such a breaker can admit again without an outcome and without losing its state key if and only if an opening time from before outlasts its recovery time |
| CircuitBreaker.RecoveryIsExact | backend/src/cps/circuit_breaker.py:84-96 | while nothing is evicted and no key can have lapsed, a tripped breaker admits exactly from the recovery time on |
| CircuitBreaker.EarlyExactlyWhenStateLost | backend/src/cps/circuit_breaker.py:76-98 | however keys are lost, before the recovery time a tripped breaker admits exactly when its state key is gone |
| CircuitBreaker.AdmitsFromThenOn | backend/src/cps/circuit_breaker.py:102-113 | once its state is not OPEN it keeps admitting until an outcome is recorded |
| CircuitBreaker.MayRefuseAfterRecovery | backend/src/cps/circuit_breaker.py:86-98 | at every moment between the shortest and the longest TTL some draws make a tripped breaker refuse |
| CircuitBreaker.AdmissionStands | backend/src/cps/circuit_breaker.py:86-89 | a question once answered yes stays answered yes, however keys lapse or are lost, until an outcome is recorded |
| CircuitBreaker.AskingMatters | backend/src/cps/circuit_breaker.py:84-98 | for some draws a tripped breaker that would have admitted at its recovery time refuses later, unless somebody asked then |
| CircuitBreaker.FailureCounts | backend/src/cps/circuit_breaker.py:129-147 | a failure counts on for as long as its own TTL, and from half open it opens without counting |
| CircuitBreaker.OpensAgain | backend/src/cps/circuit_breaker.py:141-147 | opening keeps the count, so a breaker whose state was lost opens again at the next failure |
| CircuitBreaker.SuccessIsStored | backend/src/cps/circuit_breaker.py:117-127 | after a success the state key says CLOSED until its TTL can have lapsed, and no count and no opening time is left |
| FloodFill.Initial | make_logo_transparent.py:20-26 | the seeds are the dark border pixels |
| FloodFill.Pass | make_logo_transparent.py:33-40 | one pass is one dilation of the interior within the dark pixels |
| FloodFill.SameMask | make_logo_transparent.py:42-43 | equality of the two masks |
| FloodFill.Fill | make_logo_transparent.py:31-46 | the loop ends on every image with exactly the dark pixels connected to the border, after the first pass that changes nothing |
| FloodFill.ClearBackground | make_logo_transparent.py:15-52 | only the alpha of those pixels changes, to zero |
| FloodFill.RoundsAreSteps | make_logo_transparent.py:31-46 | after k rounds exactly the pixels within k steps of the border are filled |
| FloodFill.FixedPointIsReachable | make_logo_transparent.py:42-44 | a round that changes nothing has filled exactly what is reachable |
| FloodFill.OnlyBlackIsCleared | make_logo_transparent.py:15-26 | a pixel with a channel of 30 or more is never cleared, and on the border every other pixel is |
| MenuTree.BuildTreeRecursive | backend/src/dao/admin_menu_dao.py:94-105 | the recursion ends even with parent cycles in the rows, and yields the level below its line of descent |
| MenuTree.BuildTree | backend/src/dao/admin_menu_dao.py:85-105 | every row that descends from the root occurs exactly once, under its parent and in input order; every other row is absent |
| MenuTree.ChainUnique | backend/src/dao/admin_menu_dao.py:94-105 | at most one line of descent leads to a row |
| MenuTree.ChainShort | backend/src/dao/admin_menu_dao.py:94-105 | a line of descent is no longer than the list, which is why the recursion ends |
| MenuTree.LevelWellPlaced | backend/src/dao/admin_menu_dao.py:99-104 | the children of every node are exactly the rows naming it as parent, in input order |
| MenuTree.OccurrenceIsRooted | backend/src/dao/admin_menu_dao.py:85-105 | a row occurs once if it descends from the root and otherwise never |
| OrderUpsert.OrderTable.ListExisting | backend/src/dao/order_sync_dao.py:50-70 | exactly the given numbers that some row not deleted has |
| OrderUpsert.OrderTable.BatchCreate | backend/src/dao/base_dao.py:158-179 | inserts all rows when none conflicts, and otherwise leaves the table alone |
| OrderUpsert.OrderTable.FallbackSingleInsert | backend/src/dao/order_sync_dao.py:174-204 | inserts row by row what does not conflict, with others inserting before each row |
| OrderUpsert.OrderTable.BatchUpsertOrders | backend/src/dao/order_sync_dao.py:113-172 | filter, batch and fallback together are insertion row by row, with the right count, whatever others insert before the batch and before each row |
| OrderUpsert.FilterChangesNothing | backend/src/dao/order_sync_dao.py:113-172 | leaving out rows whose number is taken changes neither the table nor what is inserted |
| OrderUpsert.FilterChangesNothingAmong | backend/src/dao/order_sync_dao.py:113-204 | also while others insert between the rows |
| OrderUpsert.DeletedForcesFallback | backend/src/dao/order_sync_dao.py:50-70 | a number that only deleted rows have passes the filter and sends the whole batch to the fallback |
| OrderUpsert.BatchGoesThroughExactly | backend/src/dao/order_sync_dao.py:113-172 | with fresh internal numbers and different order numbers, the filtered batch goes through if and only if no order number belongs to deleted rows alone |
| OrderUpsert.UpsertKeepsUnique | backend/alembic/versions/0001_init_all_tables.py:157-159 | both numbers stay unique whatever comes in |
| OrderUpsert.AmongKeepsUnique | backend/alembic/versions/0001_init_all_tables.py:157-159 | also while others insert between the rows |
| OrderUpsert.UpsertIsIdempotent | backend/src/dao/order_sync_dao.py:113-204 | a second run of the same data inserts nothing |
| OrderUpsert.InsertedExactlyWhenFirst | backend/src/dao/order_sync_dao.py:113-204 | with fresh internal numbers a row is inserted exactly when its number is given, not in the table (deleted rows count) and not earlier in the batch |
| FeeTiers.ParseTiers | backend/src/common/withdraw_fee_calculator.py:160-190 | the well-formed rows, stably sorted by lower bound |
| FeeTiers.WrittenIsRead | backend/src/common/withdraw_fee_calculator.py:166-188 | reading a row undoes writing a tier; a missing top is open, a missing minimum is zero, and exactly the rows with a needed field missing or malformed are skipped |
| FeeTiers.SortTiersSorts | backend/src/common/withdraw_fee_calculator.py:160-190 | sorting permutes the tiers and orders them by lower bound |
| FeeTiers.SortTiersStable | backend/src/common/withdraw_fee_calculator.py:160-190 | tiers with equal lower bounds keep their order |
| FeeTiers.CalcByTiers | backend/src/common/withdraw_fee_calculator.py:105-135 | charges by the first tier that holds the amount, and by none exactly when no tier holds it |
| FeeTiers.Calculate | backend/src/common/withdraw_fee_calculator.py:69-91 | uses the single rate exactly when no tier holds the amount |
| FeeTiers.LowestTierCharges | backend/src/common/withdraw_fee_calculator.py:105-190 | whatever tiers are stored, overlapping or not, the one that charges has the least lower bound of those that hold the amount, and is the first stored among those |
| FeeTiers.StoredOrderIrrelevant | backend/src/common/withdraw_fee_calculator.py:160-190 | rows with distinct lower bounds give the same tiers in whatever order they are stored |
| FeeTiers.ContiguousChargeOnce | backend/src/common/withdraw_fee_calculator.py:105-135 | contiguous tiers from zero with an open top hold every amount exactly once |
| FeeTiers.ContiguousInAnyOrder | backend/src/common/withdraw_fee_calculator.py:105-190 | such tiers written as rows in any order, unusable rows in between, are read back as they are, and each amount is charged by the one tier that holds it |
| FeeTiers.HalfEvenNearest | backend/src/common/withdraw_fee_calculator.py:94-102 | rounding goes to the nearest integer and to the even one in the middle |
| FeeTiers.FeeMeaning | backend/src/common/withdraw_fee_calculator.py:94-121 | the fee of both calculations is the minimum or the product rounded to whole cents, at least both, with the rounding off by half a cent at most |
| FeeTiers.SingleMeaning | backend/src/common/withdraw_fee_calculator.py:94-102 | without a tier the fee is the configured minimum or the product with the configured rate, at least both |
| FeeTiers.FeeMonotone | backend/src/common/withdraw_fee_calculator.py:94-102 | within a tier a larger amount is never charged less |
| FeeTiers.MonotoneExactlyWithoutDrops | backend/src/common/withdraw_fee_calculator.py:105-135 | over whole cents, with contiguous tiers in whole cents and no negative rate, a larger amount is never charged less if and only if the fee does not drop at any boundary |
| FeeTiers.FeeAtMostAmount | backend/src/common/withdraw_fee_calculator.py:94-102 | the fee is at most an amount in whole cents that covers the minimum, when the rate is at most one |
| FeeTiers.DocumentedTiersDropOnce | backend/src/common/withdraw_fee_calculator.py:11-16 | the documented tiers do not drop at 1000 and drop at 10000, where 9999.99 is charged 8.00 and 10000 is charged 5.00 |
| FeeTiers.DocumentedRowsCharge | backend/src/common/withdraw_fee_calculator.py:11-16 | the documented rows in any order, among unusable ones, charge 1.00 for 500, 8.00 for 9999.99 and 5.00 for 10000 |
| PermissionLookup.MatchRequiredPermission | backend/src/common/b15_rbac_middleware.py:165-206 | the path's own entry, else that of the longest registered prefix of three parts or more, else none |
| PermissionLookup.AnswerIsLongestRegistered | backend/src/common/b15_rbac_middleware.py:165-206 | without a trailing slash the answer is the longest registered whole-segment prefix's, and none exactly when that is PUBLIC or no prefix is registered |
| PermissionLookup.TrailingSlashes | backend/src/common/b15_rbac_middleware.py:186-206 | slashes added to a path hide its own entry and change nothing else: the answer is then the longest proper prefix's |
| PermissionLookup.LongestFound | backend/src/common/b15_rbac_middleware.py:193-202 | the first hit of the descending loop is the longest candidate |
| PermissionLookup.SegmentsOfPrefix | backend/src/common/b15_rbac_middleware.py:194-196 | every whole-segment prefix is found by joining that many segments |
| PermissionLookup.Admit | backend/src/common/b15_rbac_middleware.py:105-119 | lookup and check together refuse exactly when the entry found names a permission code the user lacks |
| PermissionLookup.RefusedExactly | backend/src/common/b15_rbac_middleware.py:165-230 | without a trailing slash a logged-in user is refused if and only if the longest registered prefix names a code the user lacks; more permissions never refuse |
| SumCache.FlowTable.SumCommissionByOrderId | backend/src/dao/commission_flow_dao.py:52-95 | answers what is cached, else sums the active flows and caches that, zero as the empty marker |
| SumCache.FlowTable.Invalidate | backend/src/dao/commission_flow_dao.py:98-106 | drops that order's sum and no other |
| SumCache.FlowTable.BatchCreate | backend/src/dao/commission_flow_dao.py:108-119 | all rows at once and then the invalidations leave what creating them one by one leaves |
| SumCache.FlowTable.Create | backend/src/dao/commission_flow_dao.py:121-128 | adds the row and drops its order's sum |
| SumCache.FlowTable.UpdateById | backend/src/dao/commission_flow_dao.py:130-143 | changes an active row and drops the sum of the order it has afterwards |
| SumCache.FlowTable.BatchBindOrder | backend/src/dao/commission_flow_dao.py:184-210 | moves the active rows among the ids and drops the target order's sum alone |
| SumCache.UpdateCoherentExactly | backend/src/dao/commission_flow_dao.py:130-143 | an update keeps the cache right if and only if it takes no nonzero amount from another order with a cached sum |
| SumCache.BindCoherentExactly | backend/src/dao/commission_flow_dao.py:184-210 | a bind keeps it right if and only if no other order with a cached sum loses a nonzero total |
| SumCache.BindMeaning | backend/src/dao/commission_flow_dao.py:184-210 | after a bind the target answers its old total plus the active rows among the ids that were not its own; deleted rows and rows outside the ids stay |
| SumCache.UpdateMeaning | backend/src/dao/commission_flow_dao.py:130-143 | an update takes the old amount from the owner before and gives the new one to the owner after; deleted or missing rows stay |
| SumCache.DroppedExactly | backend/src/dao/commission_flow_dao.py:98-210 | a cached sum is dropped by exactly the events that expire it or end with a row of its order, and never rewritten in place |
| SumCache.AnswerStays | backend/src/dao/commission_flow_dao.py:63-73 | until one of those events every read gives the same answer, stale or not |
| SumCache.MovedFlowLeavesStaleSum | backend/src/dao/commission_flow_dao.py:130-210 | for any two orders, binding or updating a flow away from one whose sum was read leaves it answering an amount it no longer has |
| SumCache.OneReadReachable | backend/src/dao/commission_flow_dao.py:52-128 | the store this starts from is reached by one insert and one read |
| SumCache.CreateKeepsCoherent | backend/src/dao/commission_settlement_dao.py:576-590 | inserting a flow and invalidating its order keeps it right |
| SumCache.NextKeepsCoherent | backend/src/dao/commission_flow_dao.py:108-143 | every read, expiry or write that moves no flow away from an order keeps it right |
| SumCache.ReadsAreExact | backend/src/dao/commission_flow_dao.py:52-143 | after any mix of those every cached sum, and so every answer, is the sum over the active flows, zero being cached as the empty marker alone |

## Left out

- Withdrawals, the daily limit, reverse-commission retries and SUPPLEMENT flows: they belong to other services; the runs have no withdrawals.
- Soft deletion of ledger rows, gaps in generated ids, settlement numbers, remarks and timestamps of rows: nothing modelled reads them.
- The account row a rejected transaction may have flushed without committing: the model restores the tables, as the session's end does.
- The width Numeric(10, 2) of the amount columns: amounts are unbounded cents.
- The collation of the order number column, in which numbers that differ only in case conflict: numbers are compared exactly.
- `check_fixed_window`: its counter's jittered TTL may be shorter than the window, so it has no per-window bound.
- Overlapping token-bucket checks: a check is one step; two that read the same tokens may both pass.
- Lost updates of the breaker's failure counter: recording an outcome is one step, or is torn only between the SET and the EXPIRE of the state it opens.
- A breaker TTL of zero, which sets no expiry at all, and timeouts or windows below one second: the results assume at least one.
- The polling of `acquire_with_wait`, `is_locked`, `get_remaining_time` and `force_release`: they only read or override the protocol.
- Acquiring under an owner name that was used before: names are generated UUIDs, so each acquire brings a new one.
- Floating-point rounding of clock readings, rates and token counts: these are reals.
- Precision limits and NaN of Decimal: fees are exact reals until they are rounded.
- LedgerStore.Ledger.CheckGenerate: takes the commission in the order's row to be non-negative, which the column does not enforce.
- MenuTree.BuildTree: requires distinct nonzero ids, which the primary key gives.
- Races between a database commit and the invalidation after it, and soft deletes of flows: the cache is modelled over sequential runs.
- Unique member names in the sliding window's sorted set: two checks with the same name in one second would count once; each admission adds a member of its own here.
- Updating an order's commission columns before it is paid, and the logs around freeze and unfreeze: the ledger does not read them.
- An operation lock of freeze or unfreeze that lapses during its call: it is taken to outlast the call.
- A session that read an account before it locks the row, as the manual refund entry does, may keep the earlier values: a locked account is read fresh here.
- Other writers of flows and accounts: the deprecated `batch_mark_settled`, the flow status edits, credits, debits and balance freezes of the account services, reconciliation credits.
- Swallowed Redis failures, paging and filter listings, dashboards, logging and audit rows: plumbing.
- `channel_mapping_util`, network adapters, HTTP dispatch, JWT, bcrypt, migrations and the user interface: foreign calls or I/O.
