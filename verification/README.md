# The sandbox provider's billing engine, and the caches and guards around it

This project models the part of the provider that decides what a user is charged for and what keeps running, and
proves what it promises over every run:

- **The billing ledger.** Sessions are charged in advance in fixed intervals. The generator bills what has come due, in
  chunks after downtime, and closes sessions whose sandbox is gone (`Ledger`, `LedgerLaws`, `LedgerTheorems`, `Ticks`,
  `Backlog`, `Generator`). Create and start requests reserve funds in a shared counter and are judged on the total it returns
  (`ReservedKey`, `ReservationGate`). Vouchers get their nonces from a counter that is seeded from the chain (`Nonce`).
- **The stop pipeline.** Durable stop markers, a bounded queue of signals, a recovery pass, and a handler that archives
  before it deletes (`StopPipeline`); the cached owner lookup that admin checks rest on (`OwnerCache`).
- **The AttestorTLS statement server.** A cached statement, one shared refresh, and margins before its expiry
  (`AttestorTls`).
- **Around them.** The broker's monitor and top-up loop (`Monitor`, `TopUp`), the registry's tag collection
  (`RegistryGc`), the request-nonce guard (`RequestNonce`), case folding in the create policy (`CaseFolding`), and the
  paging of voucher events (`EventPaging`).

`Arithmetic`, `Sequences`, `Text` and `Wrappers` hold what several modules share.

## How the model is built

Each Redis command or Lua script, each call to the chain, to Daytona or to a registry, and each section under a mutex is
one atomic step. A protocol is a `World`, a `Step` function and a `Run` over a sequence of events; its theorems speak of
every sequence. Where the program changes things in place (counters, session hashes, the stop handler, the resolver, the
statement server, the registry, the nonce store, the event filter), a class or a method with the program's own loops does
the same, and its contract ties it to the functions the theorems are about. What the outside answers is an input:
outcomes of calls, readings of the clock, orders of iteration. A call can fail, and where the caller acts on its answer it
can also take effect and lose it: pushes and session writes, nonce counter commands, manifest deletions.

A theorem that needs the environment to behave says so in a predicate, and wherever that predicate is not guaranteed by
the code a lemma says exactly when it fails or shows what happens then:

| assumption | where | exactly when, or what happens otherwise |
|---|---|---|
| for the sandbox a theorem is about: a scan reports its key at most once; a create does not charge its open session while failing to write the new one | `LedgerLaws.Orderly` | `LedgerTheorems.RepeatedKeyIsBilledPerReport`, `LedgerLaws.CreateKeepsLawIffOrderly` |
| the end of a reservation, and the parking of a voucher, take no more than a request has to spare that has missed the voucher; a request whose read of a debt fails has as much to spare as that debt is; the counter does not lapse with a reservation in it that may still be used | `ReservationGate.Orderly` | `ReservationGate.EndCoversIffHarmless`, `ReservationGate.ParkCoversIff`, `ReservationGate.ReadingCoversIff`, `ReservationGate.PassCountsIffNothingLapses`, `ReservationGate.ReleaseInsideWindowOvercommits` |
| a release that comes after the counter has lapsed takes nothing, or nothing stands | `ReservedKey.Punctual` | `ReservedKey.LateReleaseUncovers`, `ReservedKey.ShortByNoMoreThanTaken` |
| the nonce counter is lost only when nothing issued is unsettled, no call has just seen it, and every seed held is the chain's nonce | `Nonce.Orderly` | `Nonce.LossKeepsIffSafe`, `Nonce.LossIsHarmlessWhenAllIsSettled`, `Nonce.LossInsideACallStartsOver`, `Nonce.LossUnderAHeldSeed` |
| a user does not start the sandbox a theorem is about while its session or marker is being deleted | `StopPipeline.StartsInTime` | `StopPipeline.StartIsLostIffBeingDropped` |
| the in-flight mark is written, no goroutine is 15 s late, and the monitor does not ask over a standing mark that it cannot read | `TopUp.Timely` | `TopUp.AskedAgainIffMarkLost`, `TopUp.LatePollerIsOvertaken`, `TopUp.UnreadableKeyIsAskedOver` |
| for backoffs only: the monitor does not ask between the two key writes of a poller, nor over a standing backoff that it cannot read | `TopUp.Unbroken` | `TopUp.LookBetweenTheKeysRequests`, `TopUp.UnreadableBackoffIsAskedOver` |
| a nonce key is set before its message expires | `RequestNonce.AllInTime` | `RequestNonce.AcceptedTwiceIffSetTooLate` |
| no tag is planted while a deletion probes its siblings | `RegistryGc.Registry.DeleteTag` is one step | `RegistryGc.TagPlantedAfterTheProbeIsLost` |

## Where the code and its comments differ

The model follows the code.

- `internal/proxy/handler.go:410-417` says that under any interleaving request k is judged on k reservations. A voucher that
  a hook queues after a request has read the debt, and the reservation the hook then releases before that request reserves,
  can both be missed by it; `ReservationGate.EndCoversIffHarmless` says exactly when that leaves it short.
- `internal/settler/handler.go:224-230` and `cmd/billing/main.go:1046-1053` say that a dropped signal and a failed archive are
  retried on restart; `cmd/billing/main.go:958-971` retries every five minutes as well, which is what `Page` models.
- `cmd/billing/main.go:1162-1167` bounds how long an owner stays trusted by the time to live; an answer that the app is not
  registered does not clear the cached owner, so it can be served again when the next lookup fails.
- `internal/billing/reserved.go:45-49` says that a release larger than the counter cannot wipe other reservations. The script
  deletes the key as soon as DECRBY leaves nothing, so a release that comes after its key has lapsed does take what others
  have reserved since; `ReservedKey.LateReleaseUncovers` says exactly when, and `ReservedKey.ShortByNoMoreThanTaken` how much.

- `internal/proxy/attestortls.go:198-201` says that a waiting request is served the cached statement until five seconds before
  its expiry. A refresh that succeeds under a shorter lease replaces it sooner; `AttestorTls.ShorterLeaseWithdraws` is such
  a case, and `AttestorTls.OwnRefreshIsServed` says exactly what is served.

## Model

| member | source | states |
|---|---|---|
| `LedgerTheorems.EveryElapsedPeriodIsBilled` | internal/billing/generator.go:152-174 | in every run of hooks and ticks, with any pushes and session writes failing or losing their reply, in which no scan repeats this sandbox's own key: every second from its session's opening to NextVoucherAt is billed at least once and at most 1 + its events with a failed write or lost push times, none before the opening, no period starting after the present; the queued vouchers agree |
| `LedgerTheorems.TotalCharge` | internal/billing/events.go:107-158 | in the same runs the compute fees queued for the session are its opening rate times the time its clock moved plus the time billed without its clock knowing; exactly rate × (NextVoucherAt − open) while no write failed and no push lost its reply, also when OnCreate's first push was refused |
| `LedgerTheorems.OnlyConfirmedPhantomsClose` | internal/billing/generator.go:111-131 | a tick deletes a session only after ten due sights in a row in which a successful listing lacked it, the last in this tick, and only when the lookup of that id says it is gone |
| `Ticks.PhantomClosesAtTheTenth` | internal/billing/generator.go:111-131 | over any run in which a session that is due is seen nine times, absent from a successful listing each time, the tenth such tick ends it if and only if the lookup says gone and the deletion succeeds; it is charged nothing meanwhile |
| `Ticks.AbsencesAreCounted` | internal/billing/generator.go:124-129 | after n < 10 such ticks, whatever other sandboxes and hooks do in between, the session stands as it was and its count has grown by n |
| `Ticks.AbsentTick` | internal/billing/generator.go:111-131 | one such tick queues nothing for the session, counts it, and from ten on ends count, session and marker as lookup and deletions turn out |
| `Ticks.IdleTick` | internal/billing/generator.go:107-110 | a tick that does not report a sandbox, or before it is due, leaves session, count, marker and charges alone |
| `Ticks.BilledTick` | internal/billing/generator.go:132-174 | a due session that is listed, or whose listing fails, is billed all n periods begun, sixty to a voucher and at most ten vouchers, at its own price or else the flat one, up to the first push or write that does not answer; queue, clock, count and marker are stated for each way it may stop |
| `Ticks.VanishedSessionLeavesAClock` | internal/billing/session.go:48-50 | a session that is gone by the time of its visit comes back as a hash with only a clock |
| `Ticks.StopEndsBilling` | internal/billing/events.go:196-215 | a stop whose deletion succeeds removes the session and no other, and no run without another create or start of the sandbox charges it again; one whose deletion fails changes nothing |
| `Ticks.NoSessionNoCharge` | internal/billing/generator.go:77-110 | a sandbox without a session is charged nothing and gets none, until it is created or started |
| `LedgerTheorems.DueSessionsAreBilled` | internal/billing/generator.go:84-96 | a due session with a positive rate gets a voucher from where its clock stands when the listing failed or has it, unless its push fails |
| `LedgerTheorems.RepeatedKeyIsBilledPerReport` | internal/billing/session.go:57-82 | a tick bills a due session from its clock once per visit whose push is not refused; so, while none is, once if and only if the scan reports its key once |
| `LedgerTheorems.GeneratorRateIsOpeningPrice` | internal/billing/generator.go:135-141 | the generator bills at the opening price if and only if that is positive or the flat price is zero, and the startup rule always gives that |
| `Ledger.ReservedIsReleased` | internal/proxy/handler.go:1592-1602 | the gate reserves exactly what the hook releases for the same resources |
| `Ledger.OpeningPrice` | internal/billing/events.go:61-75 | under the startup rule each core and each gigabyte adds its price, and the flat price holds exactly when both are free |
| `LedgerTheorems.CoverCounts` | internal/billing/generator.go:152-174 | windows that start where the recorded ones left the clock cover each second up to the clock once, plus at most once per unrecorded window |
| `LedgerLaws.RunKeeps` | internal/billing/events.go:107-192 | every run in which no scan repeats a sandbox's key and no create charges it unwritten keeps that sandbox's law, whatever befalls the others: its clock follows from its windows, they are chained, none ends later than one interval after the present, and its part of the queue is their vouchers |
| `LedgerLaws.CreateKeepsLawIffOrderly` | internal/billing/events.go:107-147 | a create keeps the law if and only if its sandbox has no open session, the new session is written, or nothing was queued |
| `LedgerLaws.VisitKeeps` | internal/billing/generator.go:104-174 | visiting one session keeps the law of every other, and its own law when the visit looks at the session as it stands |
| `LedgerLaws.OneExtraPerStray` | internal/billing/generator.go:152-174 | a catch-up leaves a window unrecorded exactly when its last push lost its reply or the session write after it failed |
| `LedgerLaws.CatchUpChained` | internal/billing/generator.go:152-174 | each window of a catch-up starts where the one before left the clock and is not empty |
| `LedgerLaws.CatchUpBounded` | internal/billing/generator.go:152-162 | a catch-up bills no period beyond those overdue |
| `Generator.Billing.EmitPeriodVoucher` | internal/billing/events.go:82-102 | queues the window's voucher unless the fee is zero or the push is refused, and returns the window's end unless the push is refused or loses its reply |
| `Generator.Billing.OnCreate` | internal/billing/events.go:107-158 | queues create fee and first period, opens the session at once or with the first period still due, and releases exactly what the create gate reserved |
| `Generator.Billing.OnStart` | internal/billing/events.go:164-192 | does nothing when the look for a session fails or finds one, opens none when the push does not answer, else charges, opens, and releases exactly what the start gate reserved |
| `Generator.Billing.OnStop` | internal/billing/events.go:196-212 | the session is gone exactly when the delete succeeds, and every other stays |
| `Generator.Billing.ClosePhantomSession` | internal/billing/generator.go:193-204 | a failed delete of the session leaves both; after it the marker goes unless its own delete fails |
| `Generator.Billing.CatchUpLoop` | internal/billing/generator.go:152-174 | the loop over chunks leaves queue and sessions as the recursive account of it does, whichever push or write ends it |
| `Generator.RestQueue` | internal/billing/generator.go:154-164 | the loop queues the vouchers of the catch-up's windows, in order |
| `Generator.RestSessions` | internal/billing/session.go:48-50 | the loop leaves the session's clock at the end of the last recorded window |
| `Generator.Billing.VisitSession` | internal/billing/generator.go:104-174 | one session of a tick is skipped, counted as absent, closed, or caught up, as `Ledger.Visit` says, which the rows of `Ticks` say in full |
| `Generator.Billing.RunGeneration` | internal/billing/generator.go:77-187 | a tick with its loops over fields equals `Ledger.Tick` on the value of the state, so all that `Ticks` says of a tick holds of it |
| `Generator.Billing.ScanAllSessions` | internal/billing/session.go:57-82 | the scan copies the sessions of the keys that still exist, in the order of the keys |
| `Backlog.BacklogConverges` | internal/billing/generator.go:152-174 | from any books, a run of error-free ticks one interval apart that list the session works its backlog off in exactly TicksNeeded ticks: after fewer it is still behind, from then on NextVoucherAt lies within one interval after the last tick |
| `Backlog.OneTick` | internal/billing/generator.go:206-213 | a tick on more than 600 due periods leaves n − 599 at the next tick, one on at most 600 leaves now < NextVoucherAt <= now + interval |
| `Backlog.TickMoves` | internal/billing/generator.go:77-174 | an error-free tick of the ledger moves a listed session's clock by the periods due, at most 600, and changes nothing else about it |
| `Backlog.TicksNeededClosed` | internal/billing/generator.go:206-213 | the tick count in closed form |
| `Backlog.TwoDaysTakeFiveTicks` | internal/billing/generator.go:210-212 | two days at one minute take five ticks, as the comment promises |
| `ReservedKey.Counter.Reserve` | internal/billing/reserved.go:25-41 | the returned total is what the counter shows until one TTL from now; an overflow changes nothing |
| `ReservedKey.Counter.Release` | internal/billing/reserved.go:49-65 | takes off at most what is held and never moves the expiry |
| `ReservedKey.Counter.GetReserved` | internal/billing/reserved.go:69-79 | an absent or lapsed key counts as zero |
| `ReservedKey.PunctualRunIsExact` | internal/billing/reserved.go:25-61 | while no release that comes after its key generation lapsed takes anything from others the counter is exactly the sum of the standing reservations |
| `ReservedKey.ReservationsStayCounted` | internal/billing/reserved.go:25-61 | in such runs the counter is never negative and covers every unreleased reservation made less than one TTL ago |
| `ReservedKey.LateReleaseUncovers` | internal/billing/reserved.go:49-61 | a release leaves the standing reservations covered if and only if the key has not lapsed since its reservation, it takes nothing, or nothing stands |
| `ReservedKey.ShortByNoMoreThanTaken` | internal/billing/reserved.go:25-61 | in every run at all the counter is not negative and falls short of the unreleased reservations younger than the TTL by at most what late releases have taken since it last lapsed |
| `ReservedKey.LateReleaseExample` | internal/billing/reserved.go:49-61 | a run in which a one-second-old reservation is no longer counted |
| `ReservationGate.NoOvercommit` | internal/proxy/handler.go:395-470 | in every orderly interleaving of any number of requests with deposits, settlements, parked vouchers, generator charges and leaked reservations: while an admitted request is outstanding all admitted amounts and the whole debt fit the balance, but for what the generator billed since the last request ever admitted read the queue |
| `ReservationGate.LoneRequest` | internal/proxy/handler.go:398-470 | uninterrupted, the steps admit a request exactly when the balance covers debt, reservations and itself, put it in the counter, and take it out on release |
| `ReservationGate.JudgedOnTheNewBalance` | internal/proxy/handler.go:430-450 | after a top-up the request is admitted exactly when the balance then read covers its debt and total |
| `ReservationGate.MoneyIsConserved` | internal/proxy/handler.go:1689-1704 | balance less debt changes by deposits and charges only; settling takes a charge off both, parking off neither |
| `ReservationGate.OverflowReservesNothing` | internal/billing/reserved.go:25-41 | a reservation beyond 64 bits leaves counter and reservations as they were |
| `ReservationGate.LeakStaysInTheCounter` | internal/proxy/handler.go:488-498 | a request that returns without a release leaves the counter as it is, and nobody takes its amount out later |
| `ReservationGate.EndCoversIffHarmless` | internal/billing/events.go:146-150 | the end of a reservation, released or leaked, leaves a request before its own covered if and only if the request has at least as much to spare as it has missed of the vouchers queued for that one |
| `ReservationGate.ParkCoversIff` | internal/proxy/handler.go:1689-1704 | a voucher parked between a request's two debt reads leaves it covered if and only if as much has left the parked debt since it read that; parked later it always does |
| `ReservationGate.ReadingCoversIff` | internal/proxy/handler.go:1683-1704 | a debt read leaves the request covered if and only if it succeeds or what it fails to read is no more than the request has to spare |
| `ReservationGate.PassCountsIffNothingLapses` | internal/billing/reserved.go:25-29 | time leaves the reservations that may still be used counted if and only if the counter does not lapse with one of them in it |
| `ReservationGate.ReleaseInsideWindowOvercommits` | internal/billing/events.go:146-157 | a release inside another request's window admits two requests of 10 on a balance of 10 |
| `ReservationGate.RunKeeps` | internal/proxy/handler.go:761-826 | every orderly run keeps the cover of the last reserver ever admitted, of the pending ones after it, and of what requests have read, but for the vouchers they have missed and what was billed since each read the queue |
| `ReservationGate.PassGate` | internal/proxy/handler.go:398-470 | a request goes on exactly when the last balance read covers debt, earlier reservations and itself; a refusal rolls its reservation back and shows what the balance endpoint would |
| `Nonce.NoncesAreFresh` | internal/billing/signer.go:104-149 | in every interleaving, with replies lost or refused, the chain settling meanwhile and the counter lost whenever that is safe, nonces handed out strictly increase and each is above the chain's when handed out |
| `Nonce.NoncesAreConsecutive` | internal/billing/signer.go:25-36 | while every reply arrives they are last + 1, last + 2, … without a gap, also across such losses |
| `Nonce.StepKeeps` | internal/billing/signer.go:112-147 | each step keeps the invariant of counter, chain and callers and hands out at most one nonce, a fresh one |
| `Nonce.LossKeepsIffSafe` | internal/billing/signer.go:112-147 | losing the counter keeps the invariant if and only if everything handed out is settled, no caller relies on having seen the key, and every seed held is the chain's current nonce |
| `Nonce.LossIsHarmlessWhenAllIsSettled` | internal/billing/signer.go:123-147 | while no reply has been lost, after the counter is lost between calls the next nonce is new if and only if everything handed out is settled |
| `Nonce.LossInsideACallStartsOver` | internal/billing/signer.go:112-121 | lost inside a call that saw it, INCR returns 1, which is fresh if and only if nothing was ever settled or handed out |
| `Nonce.LossUnderAHeldSeed` | internal/billing/signer.go:123-147 | lost under a call that holds a seed, that call's nonce is fresh if and only if the chain has not moved on since, everything handed out being settled |
| `Nonce.LostReplySkipsANonce` | internal/billing/signer.go:112-121 | a counter command that loses its reply has counted, so the next call returns the nonce after the lost one |
| `Nonce.ChainTakesOnlyHigherNonces` | internal/billing/signer.go:123-147 | settling an issued nonce moves the chain to it exactly when it is above the chain's |
| `Text.LowerDecidesCase` | internal/billing/signer.go:104-108 | two strings lower-case to one exactly when they have equal length and differ nowhere but in the case of an ASCII letter |
| `Nonce.SoloIsARun` | internal/billing/signer.go:104-149 | a call that runs alone is one of these runs |
| `Nonce.Signer.IncrNonce` | internal/billing/signer.go:104-149 | counts on from the pair's counter, or from the chain when there is none; pairs share a counter exactly when their addresses differ in letter case only, and no other pair's moves; at the greatest 64-bit integer it gives an error, and any other error leaves the counter as it was unless a reply was lost |
| `StopPipeline.ActiveSandboxesKeepTheirState` | cmd/billing/main.go:1004-1093 | in every run of stop orders, duplicate signals, recovery, failing calls, crashes, phantom closings and users' starts, of which only its own must come in time, a sandbox keeps session and marker for as long as it is active and not archived |
| `StopPipeline.ActiveInTheEnd` | cmd/billing/main.go:1111-1123 | a sandbox not started again itself is active in the end if and only if it was so throughout |
| `StopPipeline.StartIsLostIffBeingDropped` | cmd/billing/main.go:1075-1076 | the next step can take the session that a start's hook opened if and only if a deletion of it was pending, and its marker if and only if that was |
| `StopPipeline.RecoveryDrains` | cmd/billing/main.go:977-1000 | after a pass that read every marker, while calls succeed and no order comes in, any schedule takes at most Measure steps of work and ends with no marker left |
| `StopPipeline.EveryMarkerCanBeDrained` | cmd/billing/main.go:1004-1093 | such a schedule exists from every state, and the sandboxes it unmarks are archived or gone |
| `StopPipeline.WorkProgresses` | cmd/billing/main.go:1004-1093 | every step of work lowers the measure and keeps each marker on its way to a handler that deletes it |
| `StopPipeline.WorkIsNeverStuck` | cmd/billing/main.go:988-994 | a step of work is possible exactly while the measure is positive |
| `StopPipeline.StopOrdersCollapse` | internal/settler/handler.go:205-234 | over any run in which a marker stands and recovery sends nothing, the signals queued or on their way for its sandbox do not grow in number, however many stop orders come in |
| `StopPipeline.SignalRun` | cmd/billing/main.go:1004-1093 | session and marker are deleted exactly when the sandbox is in truth archived or gone and a look answers, or the archive call succeeds; that call is made exactly when the first look does not answer or finds it active |
| `StopPipeline.ClosingStartsIffGone` | cmd/billing/main.go:1147-1153 | the generator starts closing exactly when its lookup answers and the sandbox is gone |
| `StopPipeline.ClosingRun` | internal/billing/generator.go:193-204 | a closing deletes the session exactly if gone, and the marker only after it |
| `StopPipeline.VanishedSandboxIsClosed` | internal/billing/generator.go:116-131 | a sandbox deleted straight through Daytona loses session and marker, and no other does |
| `StopPipeline.StopOrderRun` | internal/settler/handler.go:205-234 | a stop order's steps set the marker and signal exactly when it is new and the channel of 100 has room |
| `StopPipeline.RecoveryRun` | cmd/billing/main.go:977-1000 | the pass sends the first n keys it read, in order, as far as the channel of 100 has room |
| `StopPipeline.CrashLosesNoStopOrder` | cmd/billing/main.go:958-971 | from any state a crash leaves all markers and sessions, and after a pass over the markers a schedule ends each of their sandboxes |
| `StopPipeline.Pipeline.PersistStop` | internal/settler/handler.go:205-234 | marker first; a signal only with a new marker and room in the channel |
| `StopPipeline.Pipeline.RecoverPendingStops` | cmd/billing/main.go:977-1000 | sends the markers in order until the channel of 100 is full, losing none |
| `StopPipeline.Pipeline.HandleSignal` | cmd/billing/main.go:1004-1093 | one turn of the handler: session, marker, queue and whether the archive call is made, in terms of the truth and of which calls answer; and it is a run of the steps |
| `AttestorTls.EveryServedStatementIsValid` | internal/proxy/attestortls.go:202-231 | every 200 in every interleaving carries a statement with more than 5 s left, a lease of at most 300 s that has begun and that the identity's lease outlives |
| `AttestorTls.OneRefreshAtATime` | internal/proxy/attestortls.go:244-275 | at most one refresh runs, it is the one callers wait for, and every channel made is closed exactly once or belongs to it |
| `AttestorTls.WaitersAreReleased` | internal/proxy/attestortls.go:210-221 | a blocked caller's channel is closed, or the end of the running refresh closes it; and its own cancellation releases it |
| `AttestorTls.RefreshesAreRationed` | internal/proxy/attestortls.go:250-257 | in any window of W seconds at most W/5 + 1 refreshes begin |
| `AttestorTls.CachedStatementsAreOnlyReplaced` | internal/proxy/attestortls.go:261-275 | in every interleaving, once a statement is cached there is always one, and none is replaced by one issued earlier |
| `AttestorTls.OwnRefreshIsServed` | internal/proxy/attestortls.go:208-231 | a caller that waits for its own refresh is served what it issued, or when it failed the cached statement, exactly while good for more than 5 s |
| `AttestorTls.PlentyLeftIsServedAtOnce` | internal/proxy/attestortls.go:203-209 | with more than 30 s left the request is answered at once, and sets off a refresh exactly at 60 s or less when none runs and none was tried for 5 s |
| `AttestorTls.RefusedCallersDoNotWait` | internal/proxy/attestortls.go:216-230 | a caller the limiter refuses gets the cached statement while it is good for more than 5 s, and else 429 |
| `AttestorTls.IssuedUntilTheLeaseEnds` | internal/proxy/attestortls.go:277-300 | a statement is issued exactly when it is signed and the lease ends in a later second, for 300 s or to the end of the lease |
| `AttestorTls.ShorterLeaseWithdraws` | internal/proxy/attestortls.go:270-272 | a successful refresh under a shorter lease does withdraw a statement that could still be served |
| `AttestorTls.RunKeeps` | internal/proxy/attestortls.go:202-300 | every step keeps statements sound, the refresh single, and the starts five seconds apart |
| `AttestorTls.AttestorTLS.StartRefreshing` | internal/proxy/attestortls.go:244-259 | returns the running refresh's channel; else none within five seconds of the last try; else a new one, with try and channel recorded |
| `AttestorTls.AttestorTLS.Refreshed` | internal/proxy/attestortls.go:261-275 | a new statement replaces the old one, a failure leaves it; the channel is closed and none is running |
| `AttestorTls.AttestorTLS.Serve` | internal/proxy/attestortls.go:202-231 | more than 30 s left is served at once; else whatever is in force by then, the newly issued statement or after a failure the old one, exactly while it has more than 5 s left; else 429 to a caller the limiter refused during a refresh and 503 to any other; the last try is recorded when a refresh is set off |
| `OwnerCache.OwnersAreRecentAnswers` | cmd/billing/main.go:1183-1230 | any owner returned is the latest one the chain named, less than max(ttl, staleCap) before |
| `OwnerCache.LookupsAreRationed` | cmd/billing/main.go:1203-1210 | a lookup after a failing one begins at least retryEvery later, one after an owner was found at least ttl later |
| `OwnerCache.UnregisteredIsNotRationed` | cmd/billing/main.go:1223-1225 | after a zero owner the very next call asks again |
| `OwnerCache.UnregisteredDoesNotRevoke` | cmd/billing/main.go:1211-1225 | and a failure after it serves the old owner, exactly until the stale cap |
| `OwnerCache.OwnerResolver.Lookup` | cmd/billing/main.go:1189-1229 | the cached owner while younger than ttl, or than the stale cap while lookups fail or pause, else the chain's answer; fields and whether the chain is asked follow, as `OwnerCache.Resolve` says |
| `TopUp.OneDepositAtATime` | internal/broker/payment.go:169-179 | in every timely run, wherever the monitor looks, the deposits being followed and the request under way are at most one together; an in-flight key that stands is read before it is asked over |
| `TopUp.BackoffIsHonoured` | internal/broker/payment.go:181-236 | with delete and set unbroken and standing keys readable, no request for two monitor intervals after a failure, five after a timeout |
| `TopUp.MarkHoldsExactly` | internal/broker/payment.go:169-179 | a followed deposit keeps the monitor from asking for exactly the poll timeout and 30 s from its mark |
| `TopUp.BackoffHoldsExactly` | internal/broker/payment.go:188-224 | a failed deposit does for exactly two monitor intervals, one that timed out for exactly five, and none times out before its poll timeout |
| `TopUp.ConfirmedDepositFreesThePair` | internal/broker/payment.go:213-220 | a confirmed deposit leaves no mark, no poller and no backoff |
| `TopUp.RefusedRequestLeavesNothing` | internal/broker/payment.go:140-166 | a refused request leaves neither mark nor poller |
| `TopUp.LookBetweenTheKeysRequests` | internal/broker/payment.go:221-224 | a look between delete and set sends a request into the backoff |
| `TopUp.AskedAgainIffMarkLost` | internal/broker/payment.go:169-170 | a deposit just followed can be asked for again at once if and only if its in-flight mark was lost, and then two are followed |
| `TopUp.UnreadableKeyIsAskedOver` | internal/broker/payment.go:29-38 | the monitor asks over a standing in-flight key if and only if it cannot read it and no backoff that it can read holds it back, and then two deposits are followed |
| `TopUp.UnreadableBackoffIsAskedOver` | internal/broker/payment.go:29-38 | with nothing in flight a request goes out during a backoff if and only if the backoff key cannot be read |
| `TopUp.LatePollerIsOvertaken` | internal/broker/payment.go:169-170 | while a deposit is followed the monitor can ask again if and only if the in-flight key has lapsed, and then two deposits are followed |
| `TopUp.PaymentKeys.IsInflightOrBackoff` | internal/broker/payment.go:29-38 | blocked exactly when one of the keys can be read and stands |
| `TopUp.PaymentKeys.PollDepositStatus` | internal/broker/payment.go:181-236 | the first poll in time with a final status decides, else the deadline; the keys end accordingly, each if Redis takes its command |
| `Monitor.Group` | internal/broker/monitor.go:120-142 | the loop's aggregates are the sum of the pair's prices and the longest of its intervals, and each provider's users are listed once |
| `Monitor.SameAggregates` | internal/broker/monitor.go:120-142 | the aggregates are the same for every order of the scan |
| `Monitor.PairsFollowSpelling` | internal/broker/monitor.go:121-128 | sessions are added up together exactly when user and provider differ in letter case only |
| `Monitor.Consider` | internal/broker/monitor.go:145-175 | each pair is considered at most once per tick |
| `Monitor.Check` | internal/broker/monitor.go:97-175 | exactly the pairs with a session that spells its user canonically are considered |
| `Monitor.BurnIsWholeIffNoneMissed` | internal/broker/monitor.go:121-132 | the burn a pair is judged by is its whole burn if and only if the sessions spelled otherwise add up to nothing |
| `Monitor.AppendUnique` | internal/broker/monitor.go:238-245 | appends unless present |
| `Monitor.TopUpAmount` | internal/broker/monitor.go:181-191 | computes the deposit that the following rows are about, with the seconds multiplied in 64 bits |
| `Monitor.DepositReachesTarget` | internal/broker/monitor.go:181-191 | while topup >= threshold intervals and the target's seconds fit in 64 bits, a request is made exactly below the threshold and brings the balance exactly to the target |
| `Monitor.OverflowAsksForLessThanNothing` | internal/broker/monitor.go:187-191 | when those seconds wrap below zero every request is for the whole, negative target |
| `Monitor.FallbackIffTargetBelowThreshold` | internal/broker/monitor.go:187-191 | the fallback amount is reachable if and only if the target lies below the threshold |
| `Monitor.RequestsArePaidFor` | internal/broker/monitor.go:181-191 | over any run the requests times the gap between target and threshold are at most what was spent, plus the first shortfall |
| `Monitor.NoRequestBeforeTheGapIsSpent` | internal/broker/monitor.go:181-185 | no request until the balance has burnt down to the threshold |
| `RegistryGc.Registry.DeleteTag` | internal/registry/digest.go:160-205 | the tags lose exactly the named one when every listed sibling resolves to another manifest and the calls go through, and else nothing; deleted exactly when that is answered; a shared manifest is reported exactly when the first sibling it stops at has it |
| `RegistryGc.OnlyTheTagGoes` | internal/registry/digest.go:151-156 | deleting a manifest takes one tag if and only if no sibling shares it |
| `RegistryGc.TagPlantedAfterTheProbeIsLost` | internal/registry/digest.go:183-203 | a tag planted after the probe goes with the manifest |
| `RegistryGc.Registry.TagByDigest` | internal/registry/digest.go:119-143 | plants the derived tag on the source's digest and moves no other |
| `RegistryGc.DerivedTagSharesItsSource` | internal/registry/digest.go:107-118 | a derived tag shares its manifest with its source and the source with it, so each protects the other from deletion |
| `RegistryGc.DerivedTagIsSixteenDigits` | internal/registry/digest.go:128-133 | a digest, with or without its algorithm, is tagged by "d-" and its first sixteen digits, and one with fewer is not |
| `RegistryGc.DerivedTagSurvivesIffNoCollision` | internal/registry/digest.go:119-143 | tagging another source of the repository leaves a derived tag on its digest if and only if the digests are equal or differ within their first sixteen characters |
| `RegistryGc.Registry.Collect` | cmd/billing/main.go:657-686 | candidate by candidate, from the tags as they then are, one not in use goes exactly when it can and gets the verdict that says so; tags in use keep their digest; a dry run changes nothing and reports all others |
| `RegistryGc.VerdictsPartition` | cmd/billing/main.go:653-696 | deleted, kept, skipped and failed report each candidate as often as it is one |
| `RequestNonce.NonceIsReusedOnlyAfterExpiry` | internal/auth/middleware.go:138-151 | of two accepted messages under one nonce, whose wallets differ in letter case at most, the earlier had expired |
| `RequestNonce.NoMessageIsAcceptedTwice` | internal/auth/middleware.go:138-151 | no signed message is accepted twice while keys are set before the message expires |
| `RequestNonce.AcceptedTwiceIffSetTooLate` | internal/auth/middleware.go:79-89 | of two requests with one message past the checks both are accepted if and only if the second sets its key after the first's ran out, which is after the expiry |
| `RequestNonce.PassesIffBound` | internal/auth/middleware.go:79-136 | the checks let through exactly what is signed by the header's wallet up to letter case, expires within 300 s, and names this provider and resource, or nothing outside strict mode |
| `RequestNonce.RejectionNamesTheFirstFailure` | internal/auth/middleware.go:61-136 | a rejection names the first of the checks that fails |
| `RequestNonce.LoneRequest` | internal/auth/middleware.go:56-151 | uninterrupted, the steps accept exactly an entitled request whose nonce is not taken, and take it until the message expires |
| `RequestNonce.Middleware.Authenticate` | internal/auth/middleware.go:56-157 | lets through exactly an entitled request whose nonce is free and whose write succeeds; its key then stands until the message expires; every other leaves the keys alone and gets the status of what failed |
| `CaseFolding.FoldRune` | internal/proxy/createpolicy.go:143-153 | the rune loop ends at the least character of the orbit |
| `CaseFolding.FoldedName` | internal/proxy/createpolicy.go:141-153 | foldName folds each character of the name so |
| `CaseFolding.FoldNameDecidesEqualFold` | internal/proxy/createpolicy.go:141-142 | two names fold to one if and only if they are equal under pairwise folding |
| `CaseFolding.EqualFoldIsAnEquivalence` | internal/proxy/createpolicy.go:141-142 | folding is an equivalence |
| `CaseFolding.RejectFoldedKeys` | internal/proxy/createpolicy.go:124-139 | for every order of iteration accepts exactly the key sets that are pairwise fold-distinct with "snapshot" spelled exactly |
| `CaseFolding.RequireSnapshotCreate` | internal/proxy/createpolicy.go:60-112 | accepts exactly the bodies the policy describes, in whatever orders the map is walked |
| `CaseFolding.PlainBodies` | internal/proxy/createpolicy.go:82-112 | where case plays no part, a body of a snapshot and one more field is allowed exactly for fifteen field names, a snapshot text that is not blank, and a name without a dot |
| `CaseFolding.SpacesAre` | internal/proxy/createpolicy.go:98-110 | blank means made of these 25 characters |
| `CaseFolding.SnapshotIsReadTheSame` | internal/proxy/createpolicy.go:114-123 | in an accepted body a folding read and an exact read see the same, proper snapshot |
| `CaseFolding.FoldingReadHasOneSource` | internal/proxy/createpolicy.go:114-123 | every other field can be read from one spelling only |
| `EventPaging.FilterInPlace` | internal/chain/client.go:598-609 | the filter over its own array keeps, in order, exactly the logs not known to be older than asked, each as often as it came |
| `EventPaging.FilterKeeps` | internal/chain/client.go:600-608 | it keeps exactly the logs that are recent or of unknown time, each as often as it came |
| `EventPaging.Page` | internal/chain/client.go:611-656 | a page is the parsed stretch of the newest-first order that its number and size name while their product fits in 64 bits; beyond that, exactly the stretch where the remainder points, or an index out of range |
| `EventPaging.PagesAreAPrefix` | internal/chain/client.go:613-626 | the first n pages are the events of the newest logs without gap or repetition |
| `EventPaging.PagesAreAllEvents` | internal/chain/client.go:613-626 | enough pages are all events, newest first, as page size 0 gives them, and later pages are empty |
| `EventPaging.EveryEventIsOnOnePage` | internal/chain/client.go:613-626 | each newest-first position is on exactly one page, at one place |

## Left out

- ReservationGate.NoOvercommit: does not cover the end of a reservation or the parking of a voucher that takes more than a request has to spare which has missed it, nor a failed debt read of more than that, because there it is false; a concrete run shows it, and the exact condition of each step is proved. It starts with nothing reserved.
- ReservationGate.PassGate: runs one request alone; the interleavings are those of `ReservationGate.Step`. A failed reservation falls back to an unreserved check, which stays outside the overcommit claim.
- StopPipeline.ActiveSandboxesKeepTheirState: excludes users' own stops and deletes, which remove sessions on purpose. A start's return from Daytona and the session write of its hook are two steps (`UserStart`, `OpenSession`).
- StopPipeline.Pipeline.RecoverPendingStops: returns the keys it would block on instead of waiting; the waiting is in `StopPipeline.Step`.
- AttestorTls.AttestorTLS.Serve: follows one request from start to end; other callers are in `AttestorTls.Step`.
- TopUp.OneDepositAtATime: the monitor is the only requester; the broker's session handler also asks for deposits and does not look at the keys. A key that stands and cannot be read lets a second deposit through; its exact condition is proved.
- Ticks do not interleave with hooks inside one visit: UpdateNextVoucherAt after a delete would recreate a hash with only a clock. `Ticks.VanishedSessionLeavesAClock` says so of one visit, but in the runs a hook is never placed between a scan and its writes.
- The count of absences lives in memory and a restart of the process clears it; restarts are not events of the ledger's runs.
- EnsureSession (`internal/billing/events.go:218-228`) releases an amount nobody reserved and is not part of any run.
- The voucher queue is a log of pushes: settling, parking and dropping vouchers are not modelled, and a voucher's usage hash is its window.
- Prices are non-negative integers. Integers are 64 bits wide in the reservation and nonce counters, the seconds of a top-up and the place of a page, and unbounded elsewhere.
- Daytona's answer for a sandbox's resources is taken to match its snapshot, so a hook releases what the gate reserved.
- Clocks are monotone and one per process; wall-clock jumps are not modelled.
- Reading an address is a function with two laws (it ignores case and is idempotent); lower-casing is that of ASCII letters.
- Unicode's folding table is a function with the law that `SimpleFold` cycles each orbit upwards; strings are sequences of characters and not bytes.
- JSON decoding, signature recovery, EIP-712 digests and pin checks appear as their outcomes. The `action` of a signed message stands for action and payload.
- A snapshot's image name protects a tag only in the exact form that the tag list uses; other spellings of one reference are not modelled.
- The rate limiter is a yes or no per waiting request.
- Alerts, logs, events for the dashboard, broker deregistration and the `/registry/gc` request handling around the loop.
- The settler, the contracts, the chain bindings, the CLIs, the configuration, the reverse proxy and the relay: no claim is made about them.
