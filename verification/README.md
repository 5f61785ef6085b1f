# Verified models of tunneld

tunneld is a multi-node tunnel server. Its nodes share a Valkey store (keys with expiry times, single commands,
no transactions) and an object bucket. This project models the parts of it whose correctness is a matter of
interleaving, arithmetic or byte layout, and proves what they keep. Everything is Dafny; `dafny verify
dfyconfig.toml` checks the whole project.

Three styles are used throughout.

* A protocol is a machine: an `Action` is one store command, one I/O step or one lock section of one goroutine;
  `Enabled` says when it may happen, `Step` what it does, and a run is any sequence of enabled actions. A theorem
  about `Exec(…, run)` is a theorem about every interleaving.
* What a protocol must not do is stated for every run; what it must be able to do, as a run that exists from every
  reachable state of a kind.
* A local algorithm is a method with the loops and fields of the source, proved equal to a specification
  function; the promises of the source are lemmas about that function.

| files | what they model |
|---|---|
| TokenBucket, Budget, Limiter, BudgetLedger | the shared token buckets of the ACME budget, and the operations on them |
| RequestBudget, InflightHolds, Reservations, ReservationCounts, BudgetLock, BudgetSerial | requests, in-flight orders and the lock around both, over every interleaving |
| Track, Settlement, Chain, RateMark | an order that may outlive the attempt that started it, its settlement, and 429 marks |
| NameClaim | claiming a tunnel name over a store without conditional writes |
| Routes, RouteEffects | the route table, heartbeats, self-heal and teardown of phone connections |
| Spool, SpoolFiles, SpoolRecovery, SpoolAccounting, SpoolEvents, SpoolProgress | the connection-log spool with a failure or a crash at every step |
| Pacing, PacingBounds, PacingExact | traffic windows and the streams paced by them |
| StreamCap | the cap on open streams, eviction and release |
| DialBack | the rendezvous of a waiting edge with a phone's data connection |
| ReportText, Packing, PackingTables, PackingExact | packing report rows into messages under two limits |
| ClientHello, HelloMeaning, HelloShape, Ja4, Ja4Exact, HelloInvariance | the ClientHello parser and its fingerprint |
| BanWatch, BanWatcher, BanBaseline | reloading ban files that change while they are read |
| Basics | what the models share |

Times are whole nanoseconds and tokens are reals. The bucket timestamp is cut to milliseconds when stored, as in
the code, and the bounds carry that cut explicitly. A node's clock reading and the server time of the command it
drives are separate values; where a property needs their difference bounded, the bound is a parameter (`Skew`).

## Findings

* A request for an order that is begun and then not sent, because the attempt gave up in between, clears the mark
  that an earlier unanswered request of the order left. Settlement then misses the earlier one. It is therefore not
  enough that no further request is *sent*; none may be *begun* (`Settlement.UnsentRetryHidesUnansweredOrder`; the
  exact condition is `Settlement.EscapesExactly`).
* Name uniqueness does not need the write to land before the claim lock expires; only whose record the registry
  holds does. The owner's record is replaced if and only if another claim's write landed after its own lock had expired
  and after the owner's last write (`NameClaim.NamesAreUnique`, `NameClaim.OwnersKeepTheirRecord`,
  `NameClaim.LateWriteReplacesTheRecord`).
* The comment on `Heartbeat` says that a superseded connection can never extend the current owner's route, and then that
  a spurious refresh can at worst extend the re-bound owner's lifetime, which is harmless. The second half is what the
  code does: the refresh falls on another connection's route if and only if somebody wrote the route between the
  heartbeat's read and its refresh, and it changes nothing but the expiry (`Routes.RefreshReachesAnotherExactly`,
  `Routes.SupersededRefreshExtendsTheSuccessor`). The model follows the code.
* A commit spends a token even if its clock reading is behind the one that admitted the order. Places that stand are
  still covered; the stored level can fall below zero by the refill of that lag, and by no more
  (`Reservations.LevelIsShortByTheLag`, `Reservations.LagIsPaid`, `Reservations.OverdrawnExactlyUnderLag`). A commit whose
  place stands no more, because its deadline has passed or its node was not listed as live, may cost one token more.
* The release of the budget lock reads its token back and deletes the key in two commands. A delete that arrives after
  the lock expired removes the lock of a section that has begun meanwhile (`BudgetLock.LockIsLostExactly`,
  `BudgetLock.LateReleaseLetsTwoIn`).
* The stream cap holds while every open stream writes its score and prolongs the key in time, and no acquisition is
  overtaken by the end of the lifetime the key had before it. When only the second condition fails, a new stream is
  admitted without a slot (`StreamCap.OpenStreamsAreCapped`, `StreamCap.SlotIsLostExactly`, `StreamCap.SilentStreamLosesItsSlot`,
  `StreamCap.AcquisitionLosesItsSlot`).
* The least active stream is passed over when it was active after the clock was read (`StreamCap.LeastActive`).
* A crash between the write of a line and its accounting leaves the line of an event that no counter knows; recovery
  keeps it and it is uploaded (`SpoolRecovery.LostEventIsRecovered`). In general a file has one whole line beyond those
  written to it if and only if its last write put a whole line down and was neither accounted nor undone
  (`SpoolRecovery.CrashLeavesWholeLines`, `SpoolEvents.EveryLineIsAccounted`). The other case of this, a write that reports
  an error for a whole line and cannot be undone, is in the model, but `os.File` does not report such an error.
* The first message of a report with rows always takes one. It keeps to the limits, in the room counted for it, if and
  only if the first row fits beside the introduction; otherwise the row is not moved on, also if a later message would have
  had room (`PackingExact.FirstMessageFitsExactly`, `PackingExact.AllMessagesFitExactly`, `Packing.FirstMessageCanBeTooLong`).
* The guard of a reload against torn reads compares fingerprints before and after the build. That equal fingerprints mean
  equal contents is not enough for it: files that come and go while they are read leave the fingerprint as it was, and the
  tick commits what no instant had (`BanWatch.FlickerIsTorn`). What it takes is that during a tick no path changes with its
  fingerprint kept, or leaves its fingerprint and comes back to it (`BanWatch.TicksCommitOneInstant`).

## Model

| member | source | states |
|---|---|---|
| `TokenBucket.RateRefillsItsCount` | internal/limit/acme_budget.go:25-31 | a rate's bucket refills its count in a period, and more exactly when the count does not divide the period |
| `TokenBucket.WaitIsTight` | internal/limit/acme_budget.go:52-67 | the wait handed to a refused caller is tight: no retry before it is admitted, every retry from one nanosecond after it is |
| `TokenBucket.ImpossibleNeed` | internal/limit/acme_budget.go:59-61 | a need beyond the capacity is never met, and its wait is the time of one token |
| `TokenBucket.AdmittedFrom` | internal/limit/acme_budget.go:52-67 | a retry is admitted if and only if the time since the bucket started refilling is at least the time its missing tokens take, for a bucket dated before or after the reading |
| `TokenBucket.StoredIsFullAtExpiry` | internal/limit/acme_budget.go:149-157 | the expiry written with any level is late enough that every node, within the skew margin, reads an instant at which refill alone has filled the bucket |
| `TokenBucket.StoredIsForgottenInTime` | internal/limit/acme_budget.go:149-157 | a level is kept no longer than the margin after refill alone has filled the bucket |
| `TokenBucket.ForgettingIsUnobservable` | internal/limit/acme_budget.go:118-131 | a reader that takes a missing key as a full bucket sees the same tokens and leaves the same level as if the key had never expired |
| `TokenBucket.ForgottenOrKept` | internal/limit/acme_budget.go:118-157 | write, wait and read back: tokens and the level after a spend agree with the stored level, whether or not the key expired in between |
| `TokenBucket.ResyncAdmitsExactlyAfterDelay` | internal/limit/acme_budget.go:340-355 | after a resync with delay d a request is admitted exactly from d on, less the cut of under a millisecond |
| `Budget.SpendAllAt` | internal/limit/acme_budget.go:258-287 | charging several buckets spends one token of each named bucket and leaves every other key as it was |
| `Budget.ResyncAllAt` | internal/limit/acme_budget.go:340-355 | a resync writes the dated empty level of each named bucket and leaves every other key as it was |
| `Budget.WaitAdmitsExactly` | internal/limit/acme_budget.go:203-207 | the longest wait over several buckets: every retry after it is admitted by all of them, and unless it is the least wait none before it is |
| `Budget.TakeWaitIsRight` | internal/limit/acme_budget.go:258-287 | so it is with the wait of a refused charge |
| `Budget.PrepayWaitIsRight` | internal/limit/acme_budget.go:289-316 | and with that of a refused prepayment, for its whole count |
| `Budget.ReserveWaitIsRight` | internal/limit/acme_budget.go:185-225 | and with that of a refused reservation, with the places held then |
| `Budget.RefundUndoesPrepay` | internal/limit/acme_budget.go:289-338 | prepaying and refunding the count at one reading leaves every later reader what it would have found, and at most a millisecond's refill more per write |
| `Limiter.PurgeAllKeepsCounts` | internal/limit/acme_budget.go:159-183 | sweeping expired in-flight members never changes what is counted, on any bucket or node, then or at any later server time |
| `Limiter.LongestWait` | internal/limit/acme_budget.go:203-207 | the loop returns the longest wait of the buckets that cannot afford one more, held places counted, and 0 if and only if all can |
| `Limiter.Limiter.ReadBuckets` | internal/limit/acme_budget.go:133-147 | each bucket's level as stored, or full when the key is gone |
| `Limiter.Limiter.CountOn` | internal/limit/acme_budget.go:159-183 | one bucket's in-flight orders of the live nodes as they were before the sweep, and the swept store |
| `Limiter.Limiter.InflightCounts` | internal/limit/acme_budget.go:159-183 | the counts of every bucket as of the start, although earlier buckets are swept before later ones are counted |
| `Limiter.Limiter.ReserveACME` | internal/limit/acme_budget.go:185-225 | admits if and only if every bucket has a token beyond those held, holding a place on all, or holds none and returns the wait; its three pipelines reach the store at times of their own |
| `Limiter.Limiter.CommitACME` | internal/limit/acme_budget.go:227-242 | spends one token whatever is left and drops the order's hold |
| `Limiter.Limiter.ReleaseACME` | internal/limit/acme_budget.go:244-256 | drops the order's hold on every bucket and changes no level |
| `Limiter.Limiter.TakeACME` | internal/limit/acme_budget.go:258-287 | charges every bucket, or none and returns the wait |
| `Limiter.Limiter.PrepayACME` | internal/limit/acme_budget.go:289-316 | sets aside the asked count capped at the capacity, or nothing and returns the wait |
| `Limiter.Limiter.RefundACME` | internal/limit/acme_budget.go:318-338 | credits up to the capacity and nothing to a bucket dated into the future |
| `Limiter.Limiter.ResyncACME` | internal/limit/acme_budget.go:340-355 | writes every named bucket empty and dated so that one token is back after the delay |
| `Limiter.Limiter.SpendEach` | internal/limit/acme_budget.go:258-287 | the write-back loop performs the charge of the specification |
| `Limiter.Limiter.HoldEach` | internal/limit/acme_budget.go:185-225 | the write-back loop performs the reservation of the specification |
| `BudgetLedger.MoveKeepsLedger` | internal/limit/acme_budget.go:52-78 | the potential argument: one write that moves the tokens by what was used or returned keeps use within capacity, refill since the first use and a millisecond's refill per write |
| `BudgetLedger.LedgerIsMonotone` | internal/limit/acme_budget.go:73-78 | a bucket's account still balances when less was used |
| `RequestBudget.RequestsStayWithinBudget` | internal/acme/transport.go:201-269 | in every interleaving of orders on any nodes, with skewed clocks and without store errors or 429 answers, requests sent plus units set aside stay within capacity, refill and the millisecond cut per write |
| `RequestBudget.NoTokenIsLost` | internal/acme/transport.go:201-269 | the other side: in every such run a node that reads the bucket finds its capacity less the requests sent, the units set aside and the units given up; a unit that is drained and credited is back |
| `RequestBudget.TakeKeepsLedger` | internal/limit/acme_budget.go:258-287 | an admitted charge spends one token of the bucket exactly when it names it, and the account still balances |
| `RequestBudget.ChargedUnits` | internal/acme/transport.go:201-269 | a charged request holds one unit more on exactly the buckets that were charged, not on those already prepaid |
| `RequestBudget.LocalStepUses` | internal/acme/track.go:52-91 | using, returning, draining, dropping and sending move units between what is set aside and what is sent, and lose exactly those given up |
| `Reservations.ReservationsCoverCommits` | internal/limit/acme_budget.go:185-256 | in every run without a resync, with readings that may go back and sections that take time within the skew, releases between their commands: a node that reads no earlier than the last admission finds a token for every place that stands, but for one per commit whose place stood no more; commits stay within capacity, refill, the cut, and those; a standing place is counted by every section |
| `ReservationCounts.CountedIsOpen` | internal/limit/acme_budget.go:159-256 | in every run whatever a section counts is the place of an order that is neither settled on the bucket nor past its deadline |
| `ReservationCounts.AdmittedWithRoom` | internal/limit/acme_budget.go:185-225 | in every run a reservation is admitted if the bucket has a token for every such order and one more |
| `InflightHolds.ReserveAllOrNone` | internal/limit/acme_budget.go:185-225 | a reservation adds the order's place on every bucket it names and on no other, or changes no place anywhere, whatever the times of its pipelines |
| `InflightHolds.LiveCountsCover` | internal/limit/acme_budget.go:159-183 | the counts of the live nodes add up to at least the places those nodes hold, and to exactly these if no node is listed twice |
| `InflightHolds.HeldExactly` | internal/limit/acme_budget.go:159-183 | a place is counted if and only if its key is there and its deadline has not passed |
| `InflightHolds.HoldIsForgottenInTime` | internal/limit/acme_budget.go:214-216 | a place prolongs its key by no more than its time to the deadline and the margin |
| `InflightHolds.HoldMakesRecord` | internal/limit/acme_budget.go:185-225 | the margin on the in-flight key: with a skew of up to 59 s no node finds the key gone before it reads the deadline |
| `Reservations.SpendDropsOne` | internal/limit/acme_budget.go:227-242 | committing a place that stands takes exactly that place out of the count |
| `Reservations.LevelIsShortByTheLag` | internal/limit/acme_budget.go:227-242 | in every run the stored level is short by at most the refill of the largest lag of a commit behind the admissions, and a token per commit whose place stood no more; the lag is within the skew, and zero when readings do not go back |
| `Reservations.LagIsPaid` | internal/limit/acme_budget.go:227-242 | the bound is reached: for every bucket of a whole number of tokens, every skew and every lag it allows up to the time of a token, a run leaves the bucket short by exactly the refill of the lag |
| `Reservations.OverdrawnExactlyUnderLag` | internal/limit/acme_budget.go:227-242 | commits whose places stand can overdraw a bucket of a whole number of tokens if and only if readings can be behind |
| `BudgetLock.SectionsAreAtomic` | internal/limit/acme_budget.go:80-116 | while no release has deleted another section's lock, whatever interleaving of lock, read and write commands led there, a section's write has the effect of the whole section in one piece on the store of that moment, and what it admitted is still admissible |
| `BudgetSerial.SectionsAreSerial` | internal/limit/acme_budget.go:80-116 | every run of commands in which no release deletes another section's lock leaves the store that its sections leave when they run whole, one after the other in the order of their writes, each admissible on the store it finds and reading no earlier than the one before it wrote |
| `BudgetLock.ReachableMutualExclusion` | internal/limit/acme_budget.go:80-116 | while no release has deleted another section's lock, no two processes are inside unexpired sections, although release is a read and a delete |
| `BudgetLock.LockIsLostExactly` | internal/limit/acme_budget.go:100-116 | a process is inside without the lock if and only if a release deleted the key when another process was inside; a release that runs before its own lock expires never does |
| `BudgetLock.LateReleaseLetsTwoIn` | internal/limit/acme_budget.go:100-116 | a run in which a late delete lets two processes in |
| `BudgetLock.StillAdmits` | internal/limit/acme_budget.go:185-225 | what other nodes may do without the lock, releasing holds, never invalidates an admission in progress |
| `Track.UnitsAreConserved` | internal/acme/track.go:52-91 | over every sequence of calls that returns only what was used, what was set is left, in use, reported dropped, drained or overwritten: no unit is lost, made up or handed out twice |
| `Settlement.EscapesExactly` | internal/acme/track.go:192-221 | for every interleaving of the order goroutine with the attempt, an accepted or unanswered request is missed by the outcome if and only if an unanswered one was followed by one begun and answered or not sent, and none succeeded |
| `Settlement.NoOrderEscapes` | internal/acme/transport.go:96-142 | no order or finalize request escapes the outcome when none is begun after an unanswered one of its kind |
| `Settlement.OutcomeIsShown` | internal/acme/track.go:217-221 | in every run the outcome is exactly what the requests begun by then show, and nothing of a kind of which none was begun |
| `Settlement.OutcomeTellsAbandonment` | internal/acme/track.go:217-221 | in every run the outcome says abandoned if and only if the attempt gave up |
| `Settlement.OrderIsRecognised` | internal/acme/track.go:192-204 | until an order request is accepted, every POST is told as one and nothing as a finalize request |
| `Settlement.FinalizeIsRecognised` | internal/acme/track.go:192-204 | from then on a request is told as the finalize request if and only if it goes to the order's finalize address, and none as an order |
| `Settlement.UnsentRetryHidesUnansweredOrder` | internal/acme/lego_client.go:243-262 | a run in which a retry that was never sent hides an unanswered order |
| `Chain.CountedOrdersAreSpent` | internal/acme/chain.go:303-349 | the buckets of a request that may be counting at the CA are spent and never released |
| `Chain.SpentExactly` | internal/acme/chain.go:317-331 | in every run a bucket is spent if and only if the attempt succeeded or the requests of its kind begun by then show a success, an unanswered one or one in progress, and otherwise released |
| `Chain.UnbegunIsReleased` | internal/acme/chain.go:317-349 | after a failed attempt that began no request of a kind, every bucket of that kind is released, none is spent, and no section of the settlement touches its level |
| `Chain.SettlingIsExact` | internal/acme/chain.go:317-349 | with any sections of other orders between its own and any of its own failing, settling takes one token of every bucket to spend, from the level of that moment, and none of one to release; once the section for a bucket reached the store, the order's place there is gone for good |
| `Chain.CommitEach` | internal/acme/chain.go:317-349 | the commits run one section after the other, each at its own time, after whatever others did before it; a failing one changes nothing and the next follows |
| `Chain.SettleAttempt` | internal/acme/chain.go:317-364 | commits, release and refund in place among other orders' sections: the new levels, holds and track |
| `Chain.RefundUnused` | internal/acme/chain.go:351-364 | unused units leave the track and are credited exactly when the account was not limited since they were prepaid |
| `Chain.Backoff` | internal/acme/chain.go:533-550 | the delay doubles from the initial one with each failure in a row and stops at the maximum |
| `RateMark.MarksProtectTheResync` | internal/acme/transport.go:304-337 | in every run, no unit prepaid before a resync is credited by a refund that checked after its closing mark, nor used by a request that read the wait state after it |
| `RateMark.RefundAllowedExactly` | internal/acme/chain.go:351-364 | a refund is allowed if and only if no mark was written between the order's reading and its check |
| `RateMark.UnitsAreKeptExactly` | internal/acme/track.go:58-77 | in every run a request keeps its order's units, and uses one, if and only if the wait state was known and no mark was written between the order's reading and the look; otherwise all are given up |
| `RateMark.AnyMarkStopsTheUnits` | internal/acme/transport.go:304-337 | from either mark of a rate-limit answer on, an order that read the mark before may not refund, and a request of it that looks gives its units up |
| `RateMark.UnitsAreCreditedOnce` | internal/acme/chain.go:339-341 | after an order's units were credited, no later credit of the order changes a level |
| `RateMark.ComparisonIsExact` | internal/limit/acme_cooldown.go:44-69 | within the life of a mark, the current mark looks like the order's own only if none was written since |
| `RateMark.FrozenBucketTakesNoRefund` | internal/limit/acme_budget.go:318-338 | in every run, whatever takes, prepayments, commits, refunds and further resyncs came between, a refund at a reading before the instant the bucket's last resync dated it to credits nothing |
| `RateMark.CreditAfterResync` | internal/acme/chain.go:351-364 | both halves: a unit prepaid before a resync that a refund puts back was checked before the closing mark and credited no earlier than that instant; every other one is kept out by the mark or by the date |
| `NameClaim.NamesAreUnique` | internal/enroll/enroll.go:441-495 | in every interleaving of claims, lock expiries, failing writes that land and rollbacks, at most one claim is told it owns a name, and the name is in the registry |
| `NameClaim.OwnersKeepTheirRecord` | internal/enroll/enroll.go:206-215 | in every run a record is there under the name of a claim that was told it owns it, and it is another claim's if and only if that claim's write landed after its lock had expired and after the owner's last write |
| `NameClaim.RegistryNamesWriters` | internal/enroll/enroll.go:206-215 | in every run a name is in the registry only under a claim on it whose write landed and that was not rolled back |
| `NameClaim.FreeNameCanBeClaimed` | internal/enroll/enroll.go:459-495 | from any state in which a name is neither registered nor locked, a claim can come to own it |
| `NameClaim.RolledBackNameCanBeClaimed` | internal/enroll/enroll.go:206-215 | once a rollback has landed and the lock expired, another claim can come to own the name |
| `NameClaim.LateWriteReplacesTheRecord` | internal/enroll/enroll.go:459-495 | a run in which a write that lands late replaces the record of the one owner |
| `Routes.RouteOwnership` | internal/router/route_e2e.go:15-68 | in every run whose lock sections end before their locks expire, a route naming a connection goes away only by that connection's removal or by expiry, and comes to name another only by its bind, or by its write once the route had expired |
| `RouteEffects.SectionsDecideByTheOwner` | internal/router/route_e2e.go:15-49 | in every run a bind writes with the counters reset, a self-heal writes afresh without an owner, keeps the counters of its own route and declines exactly when another connection owns it, and a removal deletes exactly its own route |
| `RouteEffects.WritesLeadHere` | internal/router/route_e2e.go:51-68 | in every run the name leads to the connection that wrote the route, and nowhere after a removal |
| `RouteEffects.LostRouteCanBeHealed` | internal/router/route_e2e.go:28-49 | from every reachable state in which a heartbeat finds the route gone and the lock is free, it can bind the route afresh, for the route's lifetime and no longer |
| `RouteEffects.RouteCanBeBound` | internal/router/route_e2e.go:12-26 | from every reachable state in which a connection dials in and the lock is free, it can take the name over |
| `RouteEffects.SupersededStops` | internal/phoneconn/manager.go:240-265 | in every run a heartbeat that finds another connection's route never refreshes or restores it again, and its connection is closed unless its node drains |
| `RouteEffects.BytesAreTheSessions` | internal/router/route_e2e.go:51-68 | in every run a write over another connection's route resets the byte counters and one over its own keeps them; traffic adds what it carried in its direction, and nothing else changes them |
| `RouteEffects.LifetimeIsKept` | internal/router/traffic.go:8-25 | no command shortens the lifetime of a route that has one; a refresh gives it a full one |
| `Routes.OwnerSteps` | internal/router/registry.go:80-118 | what any single command of any goroutine can do to the owner of a route |
| `Routes.RoutesLeadToTheOwner` | internal/router/route_e2e.go:70-81 | a name routes if and only if a connection owns it, and then to that connection's node under its id; a byte-only orphan of the traffic counters never routes |
| `Routes.NoResurrection` | internal/phoneconn/manager.go:144-265 | once a teardown has removed its route without error, no later state at any later time names the connection |
| `Routes.MutualExclusion` | internal/router/lock.go:28-77 | at most one goroutine of all nodes is in an unexpired section of a name |
| `Routes.RefreshReachesAnotherExactly` | internal/router/registry.go:80-102 | in every run, a refresh that finds a route finds another connection's if and only if somebody wrote the route between the heartbeat's read and its refresh; it changes the expiry and nothing else |
| `Routes.SupersededRefreshExtendsTheSuccessor` | internal/router/registry.go:80-102 | a run in which a superseded connection's refresh extends its successor's route |
| `SpoolFiles.LongestCompletePrefix` | internal/store/spool.go:254-281 | the cut keeps a prefix that ends a line and leaves no newline behind it |
| `SpoolRecovery.RecoveryKeepsLongestPrefix` | internal/store/spool.go:254-281 | in every later run, with failing steps and further crashes, an unfinished file of a dead process is as it was or cut to its longest complete-line prefix, ready only as exactly that prefix, and gone only after exactly that prefix was uploaded or when it is empty |
| `SpoolRecovery.CrashLeavesWholeLines` | internal/store/spool.go:342-383 | after a crash at any step, the longest complete-line prefix of a file is the lines written to it, and one more if and only if the last write put its whole line down and was neither accounted nor undone |
| `SpoolRecovery.LostEventIsRecovered` | internal/store/spool.go:342-383 | a run in which an event lost in a crash is recovered |
| `SpoolFiles.RenamesLandOnFreeNames` | internal/store/spool.go:385-442 | no rename, of the writer or of recovery, lands on a ready file, across all processes that used the directory |
| `SpoolFiles.DeletedOnlyAfterUpload` | internal/store/spool.go:510-545 | a file goes only after a successful upload stored all its bytes, or when no line was ever written to it |
| `SpoolAccounting.CounterIsTheTrackedSize` | internal/store/spool.go:229-252 | the byte counter is the size of the tracked files but for one write not yet added and one removal not yet taken off; counter and disk stay within the larger of the cap and what the start found |
| `SpoolAccounting.PassFollowsCreation` | internal/store/spool.go:473-508 | each upload pass sees the files of the running process in the order it created them |
| `SpoolEvents.EveryEventIsAccounted` | internal/store/spool.go:283-297 | every submitted event is exactly one of queued, in hand, dropped and counted, written as one line, or lost in a crash |
| `SpoolEvents.EveryLineIsAccounted` | internal/store/spool.go:342-383 | over the bytes: every whole line in the files is the line of one submitted event and no event has two; an event's line is there if and only if it was written, where its fate says, or its write was neither accounted nor undone |
| `SpoolEvents.FateIsFinal` | internal/store/spool.go:342-383 | in every run a dropped, written or lost event never has another fate later |
| `SpoolEvents.WrittenEventsSurvive` | internal/store/spool.go:416-442 | a written event's line is in a file that still exists or in bytes that were uploaded |
| `SpoolProgress.EventIsQueuedExactly` | internal/store/spool.go:283-297 | a submitted event is queued if and only if the spool is open and the queue has room, and else dropped and counted |
| `SpoolProgress.EventWithRoomCanBeWritten` | internal/store/spool.go:342-414 | from every reachable state with an idle writer, a queued event that fits under the cap can be written, to the open file or under the first free one of a thousand names |
| `SpoolProgress.OldFileCanBeFinished` | internal/store/spool.go:416-442 | from every reachable state, a file whose window is over, or whose writer is to stop, can be made ready, or removed if it is empty |
| `SpoolProgress.ReadyFileCanBeUploaded` | internal/store/spool.go:473-545 | from every state, the ready file that is listed first can be uploaded whole, removed and taken off the counter |
| `SpoolProgress.LeftFileCanBeRecovered` | internal/store/spool.go:254-281 | a start that comes to an unfinished file can make its longest complete-line prefix ready and count it, or remove the file if that is empty |
| `SpoolProgress.FilesKeepToSizeAndWindow` | internal/store/spool.go:342-383 | in every run an event is written only to a file below its size limit and of the window its clock reading is in |
| `Pacing.Windows.Charge` | internal/limit/limiter.go:86-135 | the chunk is counted in all four windows and the verdict follows from the counts just read |
| `Pacing.VerdictIsRight` | internal/limit/limiter.go:105-134 | proceed if and only if no window is over; kill if and only if a day or week over its cap resets beyond five seconds, naming the week before the day; otherwise a positive wait of at most five seconds, the furthest reset of the windows over |
| `Pacing.WindowHoldsReading` | internal/limit/limiter.go:71-78 | a reading lies in its window, its reset is positive, and a window is shorter than its counter's lifetime |
| `PacingBounds.SecondBound` | internal/edge/bridge.go:512-551 | in every interleaving of S streams of one clock without teardown, and every second, at most the rate and S chunks are forwarded |
| `PacingBounds.WindowBound` | internal/limit/limiter.go:86-135 | what is charged to a second, a day or a week and forwarded is at most its cap and S chunks |
| `PacingExact.VerdictIsByWhatWasRead` | internal/limit/limiter.go:86-135 | in every run a chunk is forwarded at once if and only if what the streams read so far exceeds none of its windows, and its stream ends if and only if a day or week is exceeded that lasts longer than the longest wait |
| `PacingExact.ChunksAreConserved` | internal/edge/bridge.go:512-551 | in every run what a running stream has read is what it forwarded and the chunk it waits with |
| `StreamCap.OpenStreamsAreCapped` | internal/limit/concurrency.go:16-45 | with all commands interleaved and clocks within the skew, when streams write their score and prolong the key in time, every open stream has its member and the open streams are within the cap |
| `StreamCap.SlotIsLostExactly` | internal/limit/limiter.go:86-100 | in every run a stream loses its slot, other than by its release, if and only if the key's lifetime has run out or a purge reads no earlier than the stream's last reading plus the time to live |
| `StreamCap.ExcessIsLostSlots` | internal/limit/concurrency.go:16-45 | whatever the clocks and silences, the cap is exceeded by no more than the open streams that lost their member |
| `StreamCap.SlotIsReleasedOnce` | internal/edge/bridge.go:70-85 | in every run a stream is evicted exactly once if any evictor picked it, and its slot released exactly once if an evictor or the stream released it |
| `StreamCap.ReleasedSlotIsFree` | internal/limit/concurrency.go:38-45 | after the first release of a stream whose removal succeeds, its member is in no later state |
| `StreamCap.AcquisitionIsDecided` | internal/limit/concurrency.go:16-36 | from any state an uninterrupted acquisition is admitted with its slot if and only if the members not expired leave room for one more; otherwise it is refused and undoing leaves the set to the others |
| `StreamCap.SilentStreamLosesItsSlot` | internal/limit/concurrency.go:16-36 | a run in which a silent stream's member expires and the cap is exceeded |
| `StreamCap.AcquisitionLosesItsSlot` | internal/limit/concurrency.go:16-36 | a run with every stream in time at every step but the last, and every refresh in time there too, in which the key expires between the commands of an acquisition and the stream is admitted without a slot |
| `StreamCap.LeastActive` | internal/edge/bridge.go:87-109 | an evictable stream idle longest; none if and only if every evictable stream was active after the clock was read |
| `StreamCap.EvictableUnlessProtected` | internal/edge/bridge.go:68-69 | every stream of the tunnel not evicted yet can be evicted, except one active within the idle time and fast enough |
| `DialBack.DialBacks.Register` | internal/phoneconn/dialback.go:36-44 | a new empty channel, listed unless the token is taken |
| `DialBack.DialBacks.Unlist` | internal/phoneconn/dialback.go:57-62 | the waiter's own registration is removed and no other |
| `DialBack.DialBacks.Deliver` | internal/phoneconn/dialback.go:79-89 | accepted if and only if the token is expected for the tunnel; the registration goes and the connection is in the channel, which was empty |
| `DialBack.DeliverNeverBlocks` | internal/phoneconn/dialback.go:79-89 | in every run the channel of every listed waiter is empty, and no registration accepts two connections |
| `DialBack.ReturnedToOneWaiter` | internal/phoneconn/dialback.go:36-55 | an Await returns a connection if and only if that connection was handed to it |
| `DialBack.NoConnectionLeaks` | internal/phoneconn/dialback.go:57-70 | when all waits are over and all offers handled, every connection was returned or closed |
| `DialBack.AwaitedIsReturned` | internal/phoneconn/dialback.go:36-89 | in every run a connection offered under the token and tunnel of a waiter that selects can be returned by its Await |
| `DialBack.FreeTokenCanBeAwaited` | internal/phoneconn/dialback.go:36-44 | in every run a token that nobody waits under can be awaited |
| `DialBack.ConnectionFateIsFinal` | internal/phoneconn/dialback.go:130-132 | in every run a returned connection is never closed by the server later, a closed one never returned |
| `PackingTables.Fill` | infra/refused-apps/report.go:180-187 | the most rows that fit, with both counts |
| `PackingTables.PackSection` | infra/refused-apps/report.go:177-209 | the loop terminates, a section's rows follow those before it, and every finished message keeps to the limits or is one table with one row |
| `PackingTables.PackSections` | infra/refused-apps/report.go:156-210 | all rows are shown exactly once in order, the bodies are the texts of the planned tables, and no message ends before the row that begins the next one did not fit |
| `Packing.Render` | infra/refused-apps/report.go:130-154 | heading, optional note, table start, the blocks these take, and every row escaped |
| `Packing.Pack` | infra/refused-apps/report.go:156-223 | the messages of a greedy plan that shows every row once, in order, under its own heading |
| `Packing.MessagesKeepToTheLimits` | infra/refused-apps/report.go:156-223 | with fewer than 10^9 parts and an introduction that fits, every message keeps to both limits, except one table with one row: in a later message one that no later message has room for, in the first one that does not fit beside the introduction |
| `Packing.FittingRowsKeepToTheLimits` | infra/refused-apps/report.go:156-223 | if the first row fits beside the introduction and every row into a later message on its own, every message keeps to both limits |
| `Packing.FirstMessageCanBeTooLong` | infra/refused-apps/report.go:177-199 | a report whose first message is longer than the limit in every packing, although the introduction fits and a later message would have had room for the row |
| `PackingExact.FirstMessageFitsExactly` | infra/refused-apps/report.go:177-199 | the first message keeps to the limits, in the room counted for it, if and only if the report's first row fits beside the introduction |
| `PackingExact.AllMessagesFitExactly` | infra/refused-apps/report.go:156-210 | all messages keep to the limits, in the room counted for them, if and only if the first row fits beside the introduction and every row into a later message on its own |
| `PackingTables.FirstMessageTakesARow` | infra/refused-apps/report.go:156-210 | a report with rows puts one into its first message, also when none fits beside the introduction |
| `Packing.PartRoomIsEnough` | infra/refused-apps/report.go:165-171 | the part number and its break never take more than the 32 runes kept for them |
| `Packing.MessageBegins` | infra/refused-apps/report.go:211-222 | a message begins with its part number if there are several, and the first one with the introduction after it |
| `ReportText.NumbersReadBack` | infra/refused-apps/report.go:211-222 | the digits of a part number stand for that number |
| `ReportText.EscapedTextIsSafe` | infra/refused-apps/report.go:130-154 | escaped text reads back as the text, and holds no bracket or quote |
| `ReportText.MarkupIsFixed` | infra/refused-apps/report.go:130-154 | no text of a section adds markup: the tags depend on the number of columns and cells and on whether there is a note |
| `ClientHello.GreaseBits` | internal/edge/clienthello.go:27 | the bit test picks exactly the sixteen GREASE values |
| `ClientHello.GreaseValues` | internal/edge/clienthello.go:27 | the arithmetic test picks the same sixteen values |
| `ClientHello.CiphersOf` | internal/edge/clienthello.go:73-79 | the values of the list that are not GREASE, in order |
| `ClientHello.GatherExts` | internal/edge/clienthello.go:96-126 | the walk gathers the last data of each kind and the kinds that are not GREASE, up to the first extension cut short |
| `ClientHello.HostOf` | internal/edge/clienthello.go:132-149 | the first complete host name of the list |
| `ClientHello.WordsOf` | internal/edge/clienthello.go:166-180 | the 16-bit values, an odd byte ignored |
| `ClientHello.BestOf` | internal/edge/clienthello.go:182-202 | the largest listed version that is not GREASE |
| `ClientHello.ReadHello` | internal/edge/clienthello.go:37-130 | the facts of the record, or the error |
| `HelloMeaning.BestIsTheLargest` | internal/edge/clienthello.go:182-202 | the chosen version is listed, not GREASE, and no smaller than any other |
| `HelloMeaning.SectionsRead` | internal/edge/clienthello.go:37-101 | the fixed part of a serialized hello is read back, with or without an extension block |
| `HelloMeaning.ExtsRead` | internal/edge/clienthello.go:103-111 | the extensions of a serialized block are read back in order |
| `HelloMeaning.HostReads` | internal/edge/clienthello.go:132-149 | the first host name of a serialized server name list is read back |
| `HelloMeaning.ParsingReturnsTheMeaning` | internal/edge/clienthello.go:37-130 | parsing the serialization of any well-formed hello returns its server name, first protocol, version, ciphers, kinds and signature algorithms |
| `HelloShape.AcceptedExactly` | internal/edge/clienthello.go:37-101 | a record is accepted, and version, ciphers and extensions read off it, if and only if it is put together from them; anything cut short or with a length too large is an error |
| `Ja4.HexList` | internal/edge/clienthello.go:291-297 | four hexadecimal digits for each value, in order |
| `Ja4.FilterKinds` | internal/edge/clienthello.go:262-269 | all kinds but server name and protocol names, in order |
| `Ja4.Compute` | internal/edge/clienthello.go:229-278 | the fingerprint of the facts |
| `Ja4.SortIsCanonical` | internal/edge/clienthello.go:285-289 | sorting depends on the elements only |
| `Ja4Exact.FingerprintReads` | internal/edge/clienthello.go:229-258 | the first ten characters of a fingerprint read back as version, presence of a server name, the two counts up to 99, and the protocol |
| `Ja4Exact.SameFingerprintExactly` | internal/edge/clienthello.go:226-278 | but for collisions of the hash, two hellos share a fingerprint if and only if these characters agree, and ciphers and hashed extensions are the same in any order, and signature algorithms in the same order |
| `HelloInvariance.ParsedInfo` | internal/edge/clienthello.go:37-130 | the result for any record of a well-formed hello, whatever version and lengths its header claims: the meaning put into words, and the fingerprint |
| `HelloInvariance.OrderAndGreaseDoNotMatter` | internal/edge/clienthello.go:34-37 | hellos that differ in the order of ciphers and extensions and in GREASE only parse to the same result, fingerprint included |
| `HelloInvariance.PermutedIsAlike` | internal/edge/clienthello.go:226-229 | permuting ciphers and extensions is such a difference |
| `HelloInvariance.GreaseCipherIsAlike` | internal/edge/clienthello.go:73-79 | inserting a GREASE cipher is such a difference |
| `HelloInvariance.GreaseExtensionIsAlike` | internal/edge/clienthello.go:112-114 | inserting a GREASE extension is such a difference |
| `HelloInvariance.GreaseVersionIsAlike` | internal/edge/clienthello.go:191-201 | inserting a GREASE version is such a difference |
| `BanWatch.TicksCommitOneInstant` | internal/ban/watch.go:72-115 | over every sequence of ticks against files that change between any two reads, if during a tick no path changes with its fingerprint kept or comes back to a fingerprint it left, the live snapshot is the one it was or what the files held at one instant between the first and the last read of one tick |
| `BanWatch.StableSightIsOneInstant` | internal/ban/watch.go:86-106 | under that condition from the first fingerprint to the second, a build between two equal fingerprints saw what the files held at one instant between the first read of the first one and the first read of the build |
| `BanWatch.RequiredNeverShrinks` | internal/ban/watch.go:117-136 | the paths required to exist never shrink, whatever is seen |
| `BanWatch.VanishedExactly` | internal/ban/watch.go:117-136 | a reload is refused for a vanished path if and only if one was there at the last load and is not there now |
| `BanWatch.GatherIsRight` | internal/ban/engine.go:73-98 | reading the files fails if and only if one cannot be read or a required one is missing; otherwise it gives the texts of all files there, in order |
| `BanWatch.FinishIsRight` | internal/ban/engine.go:100-130 | the snapshot has the country database if and only if a file bans a country and the database is there; exactly when it is an error |
| `BanWatch.TickCommitsExactly` | internal/ban/watch.go:72-115 | a tick commits what round i built if and only if the first fingerprint differs from the baseline with nothing vanished, round i builds and finds nothing vanished and no change, and every round before built and found nothing vanished and a change; any other tick changes nothing |
| `BanWatch.UntoldChangeIsTorn` | internal/ban/watch.go:138-153 | when a change keeps time and size, a tick can commit what the files held at no instant |
| `BanWatch.FlickerIsTorn` | internal/ban/watch.go:86-106 | when files come and go during a tick, it can commit what the files held at no instant, although equal fingerprints mean equal contents |
| `BanWatcher.SameStates` | internal/ban/watch.go:181-192 | true if and only if the two fingerprints are equal |
| `BanWatcher.FindVanished` | internal/ban/watch.go:128-136 | true if and only if a required path is gone |
| `BanWatcher.Fingerprint` | internal/ban/watch.go:138-153 | the state of every named path, each at its own instant |
| `BanWatcher.ReadFiles` | internal/ban/engine.go:73-98 | the texts of the files there, in order, or an error for an unreadable or a vanished required file |
| `BanWatcher.TryRounds` | internal/ban/watch.go:89-115 | the bounded loop of build, fingerprint and commit |
| `BanWatcher.Watcher.Initial` | internal/ban/watch.go:26-35 | the startup load; a failure leaves the watcher as it was |
| `BanBaseline.QuietTickProvesTheSnapshot` | internal/ban/watch.go:22-35 | after the startup load, torn or not, and any ticks, a later fingerprint equal to the baseline means that the live snapshot is what the files hold at that moment, if since the load no path changed with its fingerprint kept or came back to one it left; so a torn load is never taken for current |
| `BanBaseline.LoadedFilesMustStay` | internal/ban/watch.go:26-35 | a tick that finds a file of the startup load gone changes nothing |
| `BanWatcher.Watcher.Poll` | internal/ban/watch.go:72-115 | a tick with its three rounds |

## Left out

- Fail-open branches (a store error means proceed): they give up the bounds on purpose, so the bounds are stated for runs without them.
- The commands of one pipeline of a budget section are one step: the keys are written only under the lock, and `BudgetLock` and `BudgetSerial` treat the lock, the read, the write and the release as separate steps.
- A command is taken to have effect at some moment before its call returns.
- The local `conns` map of the phone manager: it can differ from the store for a moment while a superseded connection's self-heal is in flight; only the store's route is modelled.
- Waiting for a free lock (retries and their bounds) in `internal/router/lock.go` and `internal/limit/acme_budget.go`: giving up is a step, how long it takes is not modelled.
- The waits of `before` in `internal/acme/transport.go` for cooldowns and order polls: they delay a request and change no budget.
- Which buckets an order or a request charges (`internal/acme/budget.go`): the budgets hold for every choice.
- Grouping attempts by day and app in `infra/refused-apps/report.go`: packing is proved for every list of sections.
- File names of the spool as text: a name is its timestamp and node; the fixed-width layout that makes text order time order is not modelled.
- Power failure: a crash keeps every byte a write reported, so `fsync` has no effect in the model.
- Parsing of ban files, country expansion and the prefix table: a snapshot is given by the texts it is built from.
- `TrafficExhausted`, metrics, logging, admin views, HTTP and TLS handling, certificates, attestation, and the Kotlin apps.
- 64-bit overflow and floating-point rounding: integers are unbounded and tokens are reals.
- Liveness: a theorem that something can be had gives a run from every state it speaks of, in which no step fails; that a scheduler takes this run is not claimed.
- Removing the challenges of an abandoned order (`takeCleanups` in `internal/acme/chain.go`): it touches no budget.
- BudgetLock.SectionsAreAtomic: the read and the write of a section are taken to run before its lock expires, because after that nothing protects them; the release may come at any time.
- Settlement.NoOrderEscapes: assumes that no request is begun after an unanswered one of its kind; without that it is false, and `Settlement.EscapesExactly` gives the exact condition.
- DialBack.DeliverNeverBlocks: a token whose wait failed may be registered again, so "at most one connection" is stated for each registration.
