# VectorCore GMLC, modelled and verified in Dafny

The gateway mobile location centre accepts location requests, stores them durably, resolves and positions
them over Diameter, and reports the outcome by polling, callback or MLP. This project models its hard core
and proves what it is built to guarantee. Verify it with `dafny verify dfyconfig.toml`.

How the parts fit together:

- **Request pipeline.** `RequestStore` holds the tables and the guarded statements on them, and the class
  `Store` that runs them. `Pipeline` is a step system over those statements: the worker between any two of its
  store calls, clients submitting and cancelling, retention, shutdown, crashes and recovery. `PipelineSafety`
  proves what every run keeps, `PipelineErrors` what an error reported by resolver or provider leads to,
  `PipelineProgress` that work is bounded and the queue drains, `PipelineWitness` exhibits a run.
  `Orchestrator.Worker` is the worker's own code, with the environment acting between its store calls, proved
  to perform only legal steps, so the theorems about runs are about it.
- **Diameter.** `Correlation` and `CorrelationProofs` interleave callers, the read loop and competing losses
  of a connection at mutex and channel granularity; `Transport` is the code. `PeerTable` is the peer table
  and its selection, `Connections` interleaves reconnect loops, `Close` and selections over it.
- **Location history.** `Timestamps` gives RFC 3339 texts and their order, `History` the pruning,
  `Thinning` the interval thinning.
- **Codecs.** `Gad`, `Uncertainty`, `Dmsh`, `Tbcd`.
- **Delivery, batches, MLP.** `Backoff`, `Outbox` (step system) and `DeliveryWorker` (code); `Callbacks` joins
  pipeline and outbox through the completion hook; `Batch`; `MlpWait`.

Runs are sequences of actions; `Legal` says each action was enabled in the state before it and `Exec` gives
the state reached. A store transaction happens atomically or not at all. Resolver, provider, endpoint, clock
and store failures are arbitrary.

Where the code does less than it promises:

- A completed request keeps the failure code of an earlier requeue, while the completion hook announces
  none (`PipelineWitness.StaleCodeAfterRetry`, exact condition in `PipelineSafety.HookCodeIsStoredCode`).
- Timestamps sort by text, which within one second differs from time order exactly for a fraction that
  extends another. Thinning is best possible when no two fetched rows clash like that
  (`Thinning.FetchedThinsToMaximum`) and otherwise can drop points it could keep (`Thinning.ThinningMissesOnClash`),
  though it need not (`Thinning.ClashAloneThinsToMaximum`).
- `Close` racing with a successful dial leaves a manager whose loop has exited in state `Ready`
  (`Connections.ReadyAfterExit`, exact condition in `Connections.StateAfterExit`); it is nevertheless never
  routed to (`Connections.ExitedNeverRouted`).
- A retry delay can wrap below its minimum once the minimum exceeds 2^32 ns (`Backoff.LongMisfires`, exact
  condition in `Backoff.DelayAsIntended`).
- A delivery in flight at a crash stays there forever (`Outbox.StrandedByCrash`); a delivery's row can still
  change exactly if it is pending or held by the worker (`Outbox.ChangesOnlyIfPendingOrHeld`).
- A batch row whose callback registration failed never gets its callback on a retry (`Batch.LostCallback`); a row
  carries a subscription if and only if its own attempt's registration succeeded (`Batch.Service.Resubmit`).
- Sixteen-digit numbers are accepted from the wire and cannot be sent back (`Tbcd.SixteenDigitsOneWay`).

## Model

| member | source | states |
|---|---|---|
| `RequestStore.Store.CreateRequest` | internal/storage/sqlite/sqlite.go:251-265 | inserts exactly when neither the id nor the client's idempotency key is taken; a taken key is answered with the row that holds it |
| `RequestStore.Store.TransitionRequest` | internal/storage/sqlite/sqlite.go:326-355 | moves a row, its state and code only, along CanTransition, and tells conflict, missing row and I/O failure apart |
| `RequestStore.Store.ClaimNextQueued` | internal/storage/sqlite/sqlite.go:356-387 | finds a row whenever the transaction goes through and some queued row is unscheduled or scheduled for a time the clock has reached; never one whose time it has not; of those the first created, ties by id; and stores it as Resolving with one attempt more, and nothing else |
| `RequestStore.Store.SaveServingNodeAndLocate` | internal/storage/sqlite/sqlite.go:388-407 | compare-and-set from Resolving to Locating, conflict otherwise |
| `RequestStore.Store.Requeue` | internal/storage/sqlite/sqlite.go:408-418 | compare-and-set back to Queued with the next attempt time and code, conflict otherwise |
| `RequestStore.Store.FailRequest` | internal/storage/sqlite/sqlite.go:419-429 | compare-and-set to Failed with the code, conflict otherwise |
| `RequestStore.Store.CompleteRequest` | internal/storage/sqlite/sqlite.go:430-449 | stores the result together with the compare-and-set to Completed, or neither |
| `RequestStore.Store.Recover` | internal/storage/sqlite/sqlite.go:529-532 | every row left Resolving or Locating is queued for now, with its other columns as they were; all other rows are untouched |
| `RequestStore.Store.Purge` | internal/storage/sqlite/sqlite.go:533-551 | removes exactly the terminal requests created before the cut, and exactly the results created before theirs or whose request went |
| `RequestStore.OldestDueExists` | internal/storage/sqlite/sqlite.go:363 | whenever rows are due there is one that sorts first, so ORDER BY with LIMIT 1 always has an answer |
| `RequestStore.NotDueInEarlierSecond` | internal/storage/sqlite/sqlite.go:363 | a row is not claimable while the clock is in an earlier second than its next attempt |
| `RequestStore.DueWhenReached` | internal/storage/sqlite/sqlite.go:363 | a queued row is due at a clock reading if and only if the clock has reached its scheduled time: a later second, or the same one unless the fractions clash |
| `RequestStore.OlderClaimedFirst` | internal/storage/sqlite/sqlite.go:363 | of two due rows created in different seconds the older is the one claimed |
| `PipelineSafety.StepKeepsInv` | internal/orchestrator/orchestrator.go:116-244 | every step of worker, clients, retention, crash and recovery keeps the pipeline invariant |
| `PipelineSafety.Reachable` | internal/orchestrator/orchestrator.go:116-244 | the invariant holds after every run from the empty database |
| `PipelineSafety.StepMovesRow` | internal/storage/sqlite/sqlite.go:326-449 | every step does to every surviving row one of eight named moves, with the tally each move entails |
| `PipelineSafety.PcKept` | internal/orchestrator/orchestrator.go:116-224 | whatever step is taken, the worker still holds a request in the state it last wrote, or a cancelled one, or has just settled it unannounced |
| `PipelineSafety.StepsRespectCanTransition` | internal/domain/request.go:36-52 | the guarded writes, which never consult CanTransition, move rows only along it |
| `Domain.LifeCycle` | internal/domain/request.go:32-52 | the terminal states are the five with no way out, every other state can end in cancelled, expired, failed or indeterminate, and the way forward is queued, resolving, locating, completed with a way back to the queue from the two in the middle |
| `PipelineSafety.TerminalForever` | internal/storage/sqlite/sqlite.go:326-449 | over any run a terminal request keeps its state, its modelled columns are unchanged while the row exists, and a purged request never returns |
| `PipelineSafety.CancelSilences` | internal/service/service.go:305-318 | once a cancellation commits, no continuation leaves a result row, history point or completion notice for the request, wherever the worker was |
| `PipelineSafety.RetryBudget` | internal/orchestrator/orchestrator.go:225-244 | at most two transient requeues per request, and attempt_count at most 3 plus interruptions plus recoveries, in these very numbers |
| `PipelineSafety.RetryDelays` | internal/orchestrator/orchestrator.go:235-237 | handleError only ever sees attempts of at least one, and schedules only one and two second delays |
| `PipelineErrors.RequeuesExplained` | internal/orchestrator/orchestrator.go:225-244 | over any run a request is put back for a transient failure at most as often as a transient error was reported about it uninterrupted, for an interruption at most as often as an error followed one, and by recovery at most once per recovery |
| `PipelineErrors.PermanentErrorIsFinal` | internal/orchestrator/orchestrator.go:225-244 | after a permanent error in an uninterrupted iteration no continuation claims the request again, and it ends failed with network_failure or cancelled, unless the write that fails it is lost |
| `PipelineSafety.ResultsMatchCompletion` | internal/storage/sqlite/sqlite.go:430-449 | a result row implies a Completed request, and a Completed request lacks one only if retention removed it |
| `PipelineSafety.HookOncePerRequest` | internal/orchestrator/orchestrator.go:55-63 | the completion hook fires at most once per request, with exactly the stored terminal state |
| `PipelineSafety.HookCodeIsStoredCode` | internal/orchestrator/orchestrator.go:55-63 | the announced failure code is the stored one if and only if the request failed or its worker never put it back in the queue |
| `PipelineWitness.StaleCodeAfterRetry` | internal/storage/sqlite/sqlite.go:430-449 | a legal run, at any time, after which the hook has announced no code and the row still says temporarily unavailable |
| `PipelineProgress.RecoveryTidies` | internal/storage/sqlite/sqlite.go:529-532 | after recovery no row is active without a worker holding it |
| `PipelineProgress.WorkIsBounded` | internal/orchestrator/orchestrator.go:98-224 | without new work, restarts, interruptions and store failures, claims are bounded by the sum of max(1, 3 - attempts) over queued rows, and steps by nine times that |
| `PipelineProgress.BusyWorkerCanStep` | internal/orchestrator/orchestrator.go:116-224 | a worker inside an iteration always has a next step |
| `PipelineProgress.IdleWorkerCanClaim` | internal/orchestrator/orchestrator.go:116-123 | an idle worker can claim whenever something is due |
| `PipelineProgress.QueueDrains` | internal/orchestrator/orchestrator.go:98-224 | such a run that has come to rest at a clock reading in a later second than every scheduled attempt has made every request terminal, within at most three claims a request |
| `PipelineProgress.SumOfRows` | internal/orchestrator/orchestrator.go:225-244 | the claim budget is at most three for every row |
| `PipelineProgress.QueueCanDrain` | internal/orchestrator/orchestrator.go:98-224 | from every state without stray active rows the worker, left alone, has a run that makes every request terminal within the claim budget |
| `Orchestrator.Worker.constructor` | internal/orchestrator/orchestrator.go:35-37 | a new worker, over whatever rows earlier processes left behind, continues the run they made |
| `Orchestrator.Worker.Boot` | cmd/gmlc/main.go:70 | recovery before the worker starts is a legal step that leaves it idle and no row Resolving or Locating |
| `Orchestrator.Worker.One` | internal/orchestrator/orchestrator.go:116-224 | one iteration, interrupted by anything between its store calls and whether or not a stop was requested, performs only legal steps and ends idle; without a claim it performs none; and it announces nothing, or what its resolver and provider call for: a failure by kind of error, no result, or completion with or without a history point |
| `Orchestrator.Worker.Process` | internal/orchestrator/orchestrator.go:131-224 | from the registered context on, whatever resolver and provider do, the worker lets go of the request, having announced nothing or the outcome they call for |
| `Orchestrator.Worker.ClaimNext` | internal/orchestrator/orchestrator.go:117-123 | a claim is the legal claim step, with the attempt count it stored |
| `Orchestrator.Worker.RegisterContext` | internal/orchestrator/orchestrator.go:125-129 | the cancel function is registered before the resolver is asked |
| `Orchestrator.Worker.DropContext` | internal/orchestrator/orchestrator.go:129 | the deferred cleanup deregisters the request and frees the worker |
| `Orchestrator.Worker.SaveServingNode` | internal/orchestrator/orchestrator.go:146-149 | goes on to the provider exactly when the row was still Resolving and the store was reached, and then the row is Locating |
| `Orchestrator.Worker.Position` | internal/orchestrator/orchestrator.go:146-224 | from a resolved serving node on, whatever the provider answers, the worker lets go of the request by legal steps, having announced nothing or what the answer calls for |
| `Orchestrator.Worker.Settle` | internal/orchestrator/orchestrator.go:179-224 | no result fails the request with no_immediate_result, an answer completes it, and a fix may add a history point |
| `Orchestrator.Worker.HandleError` | internal/orchestrator/orchestrator.go:225-244 | once its write takes effect, which it does exactly if the store is reached and the row still in the state the worker left it: interrupted, the row is queued for now; on a permanent error failed with network_failure; on a transient one out of three attempts failed with temporarily_unavailable; on any other queued for the retry time; and only a failure is announced |
| `Orchestrator.Worker.WriteBack` | internal/orchestrator/orchestrator.go:225-244 | a requeue, stored or lost, lets go of the request without calling the hook; stored, the row is queued with the time and code given |
| `Orchestrator.Worker.WriteFailure` | internal/orchestrator/orchestrator.go:183-189 | the hook is called exactly when the failure was stored, with its code, which the row keeps |
| `Orchestrator.Worker.StoreFailure` | internal/orchestrator/orchestrator.go:183-189 | a failure is stored exactly if the row is still in the state the worker left it and the store is reached |
| `Orchestrator.NoticeMatchesRow` | internal/orchestrator/orchestrator.go:55-63 | over any run an announced failure is the one the row tells of while it exists |
| `Orchestrator.Worker.WriteResult` | internal/orchestrator/orchestrator.go:207-223 | exactly when the completion was stored the hook is called, after the history point if there was a fix and it could be recorded |
| `Orchestrator.Worker.CompleteRequest` | internal/orchestrator/orchestrator.go:207-210 | history and hook follow exactly when the completion was stored, and then the row is Completed and the result there |
| `Orchestrator.Worker.RecordHistory` | internal/orchestrator/orchestrator.go:217-221 | a point is added if it could be recorded, and either way the hook comes next |
| `Orchestrator.Worker.NotifyCompletion` | internal/orchestrator/orchestrator.go:55-63 | announces the state just stored and nothing else |
| `Orchestrator.Worker.Cancel` | internal/orchestrator/orchestrator.go:77-85 | cancels the context of the request if the worker holds it, and no other; called, as the service does, after the cancellation committed |
| `Orchestrator.Worker.CancelByClient` | internal/service/service.go:305-318 | a client cancellation at any moment is a legal step that leaves the worker where it was, and marks the row cancelled unless it is terminal |
| `Orchestrator.Worker.Submit` | internal/service/service.go:125-168 | a submission at any moment is a legal step that leaves the worker where it was |
| `Orchestrator.Worker.Retain` | internal/storage/sqlite/sqlite.go:533-551 | a retention purge at any moment is a legal step that leaves the worker where it was |
| `Orchestrator.Worker.Interfere` | internal/orchestrator/orchestrator.go:116-224 | any number of steps of the rest of the process between two store calls leaves a legal run and the worker where it was |
| `Orchestrator.ClaimRespectsSchedule` | internal/storage/sqlite/sqlite.go:408-409 | a requeued request is never claimed while the clock is in an earlier second than its next attempt |
| `Orchestrator.RetryTimes` | internal/orchestrator/orchestrator.go:235-237 | the retry time lies the computed delay after the clock reading |
| `CorrelationProofs.StepKeepsInv` | internal/diameter/tcp.go:208-277 | every step of callers, read loop, timeouts and losses keeps the correlation invariant |
| `CorrelationProofs.Reachable` | internal/diameter/tcp.go:208-277 | the invariant holds after every run |
| `CorrelationProofs.NoSendBlocks` | internal/diameter/tcp.go:239-269 | in every reachable state every pending send has room, also those made under the mutex; each channel is sent on at most once |
| `CorrelationProofs.DrainedStaysEmpty` | internal/diameter/tcp.go:258-269 | once drained, the pending table is empty in every later state |
| `CorrelationProofs.NobodyStuckAfterLoss` | internal/diameter/tcp.go:208-277 | after the channel closed every unfinished caller has a step other than its timeout, or the drain holding the mutex has one |
| `CorrelationProofs.LossReportedIsTheFirst` | internal/diameter/tcp.go:258-277 | however many failAll calls compete, every caller failed by the loss reports the error of the first |
| `CorrelationProofs.ReturnsExplained` | internal/diameter/tcp.go:208-238 | a caller leaves with its context's error if and only if its context ended while it waited, with a write error if and only if its write failed, and is refused only on a closed connection |
| `CorrelationProofs.AnswerBearsOwnId` | internal/diameter/tcp.go:208-250 | a returned answer bears the caller's own Hop-by-Hop identifier, wrap-around or not |
| `CorrelationProofs.AnswerArrived` | internal/diameter/tcp.go:239-250 | what a caller is returned as an answer came from the peer in this run, without the request bit |
| `CorrelationProofs.SameHopFarApart` | internal/diameter/tcp.go:212 | two allocations of the wrapping counter share an identifier only if at least 2^32 apart |
| `CorrelationProofs.DistinctIds` | internal/diameter/tcp.go:212-220 | inside the window unfinished calls have distinct identifiers |
| `CorrelationProofs.AnswersReachTheirCaller` | internal/diameter/tcp.go:208-250 | while nothing outlives 2^32 allocations, an answer goes only to the caller it answers, and no waiting caller loses its table entry |
| `Transport.TcpRoundTripper.Register` | internal/diameter/tcp.go:208-227 | a call enters the table under its number modulo 2^32, and is refused exactly on a closed connection, the table then untouched |
| `Transport.TcpRoundTripper.Deliver` | internal/diameter/tcp.go:239-250 | an answer is taken to the caller registered under its identifier, whose entry goes, and to nobody if there is none; a request changes nothing |
| `Transport.TcpRoundTripper.Send` | internal/diameter/tcp.go:247-249 | the answer is then what the caller finds in its channel |
| `Transport.TcpRoundTripper.Receive` | internal/diameter/tcp.go:228-230 | a caller returns what its channel holds: an answer under its own number modulo 2^32, or the stored loss |
| `Transport.TcpRoundTripper.Remove` | internal/diameter/tcp.go:251 | removes that identifier's entry and no other |
| `Transport.TcpRoundTripper.ClosedError` | internal/diameter/tcp.go:270-277 | reports the stored loss |
| `Transport.TcpRoundTripper.FailAll` | internal/diameter/tcp.go:258-269 | the first call drains: every caller with an entry of its own in the table gets the loss exactly once, no other call changes, the table ends empty; later calls do nothing |
| `Transport.TcpRoundTripper.DrainTable` | internal/diameter/tcp.go:264-267 | the loop, in whatever order, hands the loss to exactly the callers that had an entry |
| `Transport.DrainStep` | internal/diameter/tcp.go:264-267 | draining one entry leaves the outcome of the whole drain unchanged |
| `Transport.TcpRoundTripper.Allocate` | internal/diameter/tcp.go:212-214 | draws the next number, whose identifier is it modulo 2^32, and an empty channel |
| `Transport.TcpRoundTripper.Close` | internal/diameter/tcp.go:259-263 | the loss is stored before the channel closes and the channel closed before the table is locked |
| `Transport.TcpRoundTripper.DrainEntry` | internal/diameter/tcp.go:264-267 | one entry is removed and its caller handed the loss, without blocking |
| `Transport.TcpRoundTripper.DrainAll` | internal/diameter/tcp.go:264-267 | the loop ends with the table empty and the outcome of the drain reached |
| `PeerTable.UpsertedEntries` | internal/diameter/peertable.go:30-43 | an announcement replaces only an entry of no newer generation, and changes no other manager's entry |
| `PeerTable.UpsertedPositions` | internal/diameter/peertable.go:30-43 | an announcement position by position: last if not listed, else in place of the first entry unless that is newer |
| `PeerTable.RemovedEntries` | internal/diameter/peertable.go:44-56 | a withdrawal affects only the entry of its own generation, and no other manager's |
| `PeerTable.RemovedPositions` | internal/diameter/peertable.go:44-56 | a withdrawal position by position: only entries of the manager and generation change, the first of them to not ready and without applications |
| `PeerTable.TableUnique` | internal/diameter/peertable.go:30-56 | after any sequence of events each manager has at most one entry |
| `PeerTable.NormExact` | internal/diameter/peertable.go:29 | two names normalise alike if and only if, without surrounding white space and one final dot, they agree letter by letter but for ASCII case |
| `PeerTable.NewestGenerationWins` | internal/diameter/peertable.go:30-56 | in any order of events the table ends with the newest generation's capability ready if and only if it was announced and not withdrawn afterwards |
| `PeerTable.OfTierFirst` | internal/diameter/peertable.go:57-94 | the first member of a tier's accumulated list is the first peer in table order that belongs to the tier |
| `PeerTable.HostThenRealm` | internal/diameter/peertable.go:57-94 | the preferred peer is the first usable one of the host asked for, if there is one, otherwise the first of the realm, if there is one |
| `PeerTable.ThenDirectThenRelay` | internal/diameter/peertable.go:87-92 | failing both it is the first direct peer of the application, but only if neither host nor realm was asked for, and otherwise the first relay |
| `PeerTable.RouteImpliesReady` | internal/diameter/peertable.go:105-108 | any route for an application means ReadyFor that application |
| `PeerTable.PeerTable.Upsert` | internal/diameter/peertable.go:30-43 | a manager not listed goes last, a listed one has its first entry replaced unless that is of a newer generation |
| `PeerTable.PeerTable.Remove` | internal/diameter/peertable.go:44-56 | only entries of that manager and generation change, and the first of them is left not ready and without applications |
| `PeerTable.PeerTable.Select` | internal/diameter/peertable.go:57-94 | the first peer of the host asked for, by name and application, if any is usable; else the first of the realm; else the best of the remaining tiers; fails exactly when every tier is empty |
| `PeerTable.PeerTable.SelectTier` | internal/diameter/peertable.go:57-94 | one pass collects the four tiers and takes the first of the best |
| `PeerTable.PeerTable.ReadyFor` | internal/diameter/peertable.go:105-108 | holds exactly when an undirected request for the application could be routed |
| `Connections.StepKeepsInv` | internal/diameter/manager.go:73-183 | every step of reconnect loops, Close and selections keeps the connection invariant |
| `Connections.Reachable` | internal/diameter/manager.go:73-183 | the invariant holds after every run |
| `Connections.RoutesAreCurrent` | internal/diameter/registry.go:35-43 | a selection routes only on the capabilities of the manager's current generation, while its loop is inside that connection |
| `Connections.ReadyEntryIsLastPublished` | internal/diameter/manager.go:137-158 | in every interleaving a ready entry is the capability its manager published last, numbered with how many connections that manager has opened |
| `Connections.GenerationCounts` | internal/diameter/manager.go:73-130 | a manager's generation is the number of connections it has opened, so none is used twice |
| `Connections.LooksAtLiveConnections` | internal/diameter/manager.go:131-158 | a peer a selection counts as ready is inside the connection whose capability it looks at and has not yet acknowledged a loss |
| `Connections.FoundIsSeenReady` | internal/diameter/peertable.go:57-66 | in every interleaving a selection counts a manager as ready if and only if, since it began, it looked at it and saw it Ready |
| `Connections.NobodySkipped` | internal/diameter/peertable.go:57-66 | a selection that may end has looked at every peer of the table |
| `Connections.ExitedNeverRouted` | internal/diameter/manager.go:73-130 | after its loop exited a manager is never routed to again, even if Close raced with a successful dial |
| `Connections.ReadyAfterExit` | internal/diameter/manager.go:175-183 | a legal run in which Close races a dial and the exited manager is left Ready |
| `Connections.StateAfterExit` | internal/diameter/manager.go:73-136 | an exited manager is left Ready if and only if a dial succeeded after Close had begun and the loop wrote nothing more, and Stopping if and only if the loop wrote nothing at all after Close had begun |
| `Connections.StateIsLastWrite` | internal/diameter/manager.go:131-136 | over any run a manager's state is what the last set wrote |
| `Connections.CloseBegan` | internal/diameter/manager.go:175-176 | a loop sees the stop, and exits, only after Close has begun |
| `Timestamps.TextOrderAcrossSeconds` | internal/storage/sqlite/sqlite.go:83 | instants in different seconds sort as text exactly as in time |
| `Timestamps.TextOrderWithinSecond` | internal/storage/sqlite/sqlite.go:83 | within a second text order is time order if and only if neither printed fraction is a proper prefix of the other |
| `Timestamps.UtcInjective` | internal/storage/sqlite/sqlite.go:83 | distinct instants have distinct texts |
| `Timestamps.UtcReads` | internal/storage/sqlite/sqlite.go:83 | the text is the RFC 3339 reading of the instant field by field, with as many of nine fraction digits as needed and no point without one |
| `Timestamps.ReachedAsText` | internal/storage/sqlite/sqlite.go:363 | a stored time compares to a clock reading as reached if and only if the clock is in a later second, or in the same one with the same fraction, a fraction its own extends, or a later one that does not extend its own |
| `Timestamps.YearsExact` | internal/storage/sqlite/sqlite.go:83 | the days before a year, in closed form: the Gregorian leap rule |
| `Timestamps.MonthsExact` | internal/storage/sqlite/sqlite.go:83 | the days before a month, in closed form |
| `Timestamps.WholeSecondSortsLast` | internal/storage/sqlite/sqlite.go:83 | a whole second sorts after every later instant of that second |
| `Timestamps.LaterSecondNotReached` | internal/storage/sqlite/sqlite.go:363 | the due test fails while the clock is in an earlier second |
| `History.TopUnique` | internal/storage/sqlite/sqlite.go:748-765 | the n largest keys of a collection are unique as a multiset |
| `History.TopIncremental` | internal/storage/sqlite/sqlite.go:748-765 | the n largest of the n largest plus one more are the n largest of all |
| `History.HistoryTable.RecordHistory` | internal/storage/sqlite/sqlite.go:748-765 | keeps the 20 largest keys of the target's rows and the new one, and every other target's rows |
| `History.HistoryTable.DropOldest` | internal/storage/sqlite/sqlite.go:760 | removes one row of the target and leaves the rest on top of everything recorded |
| `History.IncrementalIsBatch` | internal/storage/sqlite/sqlite.go:748-765 | after any sequence of recordings over any targets each target holds exactly the 20 largest keys of everything recorded for it |
| `History.KeptAreLatest` | internal/storage/sqlite/sqlite.go:748-765 | with twenty or more points recorded a target holds twenty, and none it dropped is from a later second than one it kept |
| `History.ScanNeverTruncates` | internal/storage/sqlite/sqlite.go:767-773 | whatever was recorded, a query under the 10000-row cap fetches exactly what it would fetch without: every matching row in the order of recorded_at |
| `History.MatchesBySecond` | internal/storage/sqlite/sqlite.go:767-773 | a query selects the target's points from start to stop, both included, by the second |
| `Thinning.ThinnedIsSpaced` | internal/storage/sqlite/sqlite.go:801-811 | whatever the row order, thinning gives a subsequence starting with the first row whose points are each at least the interval after all before |
| `Thinning.ThinnedIsMaximum` | internal/storage/sqlite/sqlite.go:801-811 | for rows in time order no spaced subsequence is longer |
| `Thinning.GreedyStaysAhead` | internal/storage/sqlite/sqlite.go:801-811 | and none as long ends earlier |
| `Thinning.Compact` | internal/storage/sqlite/sqlite.go:801-811 | the loop over the aliased slice, reading and writing the same rows, computes the thinning |
| `Thinning.Read` | internal/storage/sqlite/sqlite.go:805-810 | one pass never writes past the row it reads, so every row is read before it is overwritten |
| `Thinning.ThinInPlace` | internal/storage/sqlite/sqlite.go:801-814 | a positive limit then keeps a prefix |
| `Thinning.FetchedInTimeOrder` | internal/storage/sqlite/sqlite.go:772 | rows sorted by text are in time order if and only if no two share a second with one fraction a proper prefix of the other |
| `Thinning.FetchedThinsToMaximum` | internal/storage/sqlite/sqlite.go:772-811 | thinning what a query fetched keeps as many points as any spaced choice could, if no two of the rows clash |
| `Thinning.ClashAloneThinsToMaximum` | internal/storage/sqlite/sqlite.go:772-811 | the condition is not necessary: two clashing rows alone are thinned as well as possible at any interval |
| `Thinning.ThinningMissesOnClash` | internal/storage/sqlite/sqlite.go:772-811 | for every whole second, three rows in text order whose thinning is shorter than another spaced choice |
| `Tbcd.EncodeMsisdn` | internal/slh/slh.go:162-184 | refuses everything but one to fifteen decimal digits, and otherwise puts digit 2i in octet i modulo 16 and digit 2i + 1 in octet i divided by 16, with 15 filling the last of an odd number |
| `Tbcd.DecodeMsisdn` | internal/slh/slh.go:189-209 | accepts exactly octets whose two nibbles are digits, but for 15 high in the last, and gives the digits low nibble first |
| `Tbcd.DecodeInvertsEncode` | internal/slh/slh.go:162-209 | every number of one to fifteen digits survives packing and unpacking |
| `Tbcd.EncodeInvertsDecode` | internal/slh/slh.go:162-209 | accepted octets survive unpacking and packing if and only if they hold one to fifteen digits |
| `Tbcd.SixteenDigitsOneWay` | internal/slh/slh.go:162-209 | eight full octets are accepted and cannot be packed again |
| `Gad.Decode` | internal/gad/gad.go:71-87 | succeeds exactly on the shape, length, orientation and point-count conditions, each spelled out in octets, with the area they stand for, and gives the first failing check otherwise |
| `Gad.PointNeverFails` | internal/gad/gad.go:147-167 | the latitude and longitude range errors are unreachable for all 48-bit points |
| `Gad.DecodePolygon` | internal/gad/gad.go:129-146 | returns every corner in order, each where its six octets say, or the point count or length error |
| `Gad.DecodeEllipse` | internal/gad/gad.go:109-128 | returns centre, both axes, orientation and confidence, or the length or orientation error |
| `Gad.DecodeCircle` | internal/gad/gad.go:98-108 | returns centre and radius, or the length error |
| `Gad.DecodeEllipsoidPoint` | internal/gad/gad.go:88-97 | on seven octets, and only then, the latitude is the 23-bit magnitude of octets 1 to 3 times 90/2^23, negative with the top bit, and the longitude the two's complement of octets 4 to 6 times 360/2^24 |
| `Gad.LatitudeMeaning` | internal/gad/gad.go:147-157 | a latitude code n below 2^23 stands for an X in [0, 90) with n the floor of X * 2^23 / 90, and n + 2^23 for -X |
| `Gad.LongitudeMeaning` | internal/gad/gad.go:158-166 | a longitude code read as two's complement is the floor of X * 2^24 / 360, X is positive up to 2^23 and negative from there on, and grows with that reading |
| `Gad.PointMarks` | internal/gad/gad.go:147-166 | the point at any offset is what its six octets stand for |
| `Gad.LatitudeOrder` | internal/gad/gad.go:147-157 | two latitude codes mean the same if and only if they are equal or both zero |
| `Gad.LongitudeOrder` | internal/gad/gad.go:158-166 | two longitude codes mean the same only if equal |
| `Gad.DecodeLosesOnlySpareBits` | internal/gad/gad.go:71-167 | two descriptions decode to the same area if and only if they agree on every bit but the spare ones and the sign of a zero latitude |
| `Uncertainty.GreatestCode` | internal/gad/gad.go:184-197 | the code is the greatest k up to 127 with 10(1.1^k - 1) at most the metres asked, zero for none; unless clamped one more would exceed them |
| `Uncertainty.EncodeMonotone` | internal/gad/gad.go:184-197 | a looser accuracy never gets a smaller code |
| `Uncertainty.EncodeInvertsDecode` | internal/gad/gad.go:168-197 | encoding what an octet stands for gives back its seven significant bits |
| `Uncertainty.MetresOrder` | internal/gad/gad.go:168-171 | radii are ordered as their codes are |
| `Uncertainty.RadiiGrow` | internal/gad/gad.go:168-171 | code 0 is 0 m, code 1 is 1 m, and each next radius is 1.1 times the last plus 1 m |
| `Dmsh.SplitExact` | internal/mlp/dtd.go:335 | the fields found are the only match of the coordinate pattern, and none are found only when there is no match |
| `Dmsh.DecodeAcceptsThePattern` | internal/mlp/dtd.go:364-377 | parsing succeeds exactly when the trimmed text matches the pattern, with the value of that match |
| `Dmsh.ReadExactly` | internal/mlp/dtd.go:364-377 | a match is read as degrees plus minutes / 60 plus seconds / 3600, negative with S or W |
| `Dmsh.PrintedInRange` | internal/mlp/dtd.go:343-357 | for every real coordinate the text printed matches the pattern, with minutes and seconds below 60 and three decimals |
| `Dmsh.PrintedExactly` | internal/mlp/dtd.go:343-357 | the text is degrees, minutes and seconds below 60 and three decimals, together the coordinate's size to the nearest milli-arcsecond, then the letter of its sign |
| `Dmsh.DecodeInvertsEncode` | internal/mlp/dtd.go:343-377 | for every real coordinate parsing what was printed gives it back to within 1/7,200,000 degree |
| `Dmsh.EncodeInvertsDecode` | internal/mlp/dtd.go:343-377 | printing what a printed coordinate parses to gives the same text unless a negative coordinate rounded to zero |
| `Dmsh.LatitudeTextDeterminesCode` | internal/mlp/dtd.go:343-357 | the printed latitude of a GAD point determines its 24-bit code, but for the sign of zero |
| `Dmsh.LongitudeTextDeterminesCode` | internal/mlp/dtd.go:343-357 | the printed longitude of a GAD point determines its 24-bit code |
| `Backoff.DelayAsIntended` | internal/delivery/worker.go:178-191 | a retry waits min(min * 2^(n-1), max), and max beyond 33, if and only if the doubled delay does not overflow 64 bits to something between 0 and max |
| `Backoff.ShortBackoff` | internal/delivery/worker.go:178-191 | with a minimum of at most 2^32 ns it always does, is monotone, and stays between min and max |
| `Backoff.DelayDoubles` | internal/delivery/worker.go:178-191 | with such a minimum the first retry waits min, each of the next 32 twice the one before or max if less, and every later one max |
| `Backoff.ShortNeverMisfires` | internal/delivery/worker.go:178-191 | no attempt number overflows to a short delay with such a minimum |
| `Backoff.LongMisfires` | internal/delivery/worker.go:178-191 | with one nanosecond more the 33rd delay is shorter than the minimum, for every maximum |
| `Backoff.DefaultsOrdered` | internal/delivery/worker.go:48-65 | defaults are 5 attempts, 1 s and 300 s, each only for a value out of range; they leave min at most max unless min exceeds both the configured maximum and five minutes |
| `Outbox.StepKeepsInv` | internal/delivery/worker.go:109-171 | every step of the delivery worker, arrivals, lost writes and crashes keeps the outbox invariant |
| `Outbox.Reachable` | internal/delivery/worker.go:109-171 | the invariant holds after every run |
| `Outbox.PostBudget` | internal/delivery/worker.go:109-171 | over any run a delivery is posted at most MaxAttempts times plus once per interrupting shutdown |
| `Outbox.PostsOnlyUnaccepted` | internal/delivery/worker.go:138 | a post is only made for a delivery in flight that no endpoint has accepted |
| `Outbox.ClosedForever` | internal/storage/sqlite/sqlite.go:605-699 | once delivered, given up, accepted, or in flight with nobody holding it, a delivery is never posted again, and its row does not change |
| `Outbox.StrandedByCrash` | internal/delivery/worker.go:109-138 | a run, at any time, that leaves a delivery in flight at a crash, after which no continuation changes its row |
| `Outbox.ChangesOnlyIfPendingOrHeld` | internal/storage/sqlite/sqlite.go:605-699 | after any run some continuation changes a delivery's row if and only if it is pending or the worker holds it |
| `Outbox.AcceptedOnce` | internal/delivery/worker.go:149-153 | an endpoint that answered 2xx is never sent the delivery again |
| `Outbox.CodesTell` | internal/delivery/worker.go:149-171 | over any run a delivered row carries a status from 200 to 299, a given-up one a status outside, and any other none |
| `Outbox.ClaimRespectsSchedule` | internal/storage/sqlite/sqlite.go:612 | a requeued delivery is never claimed while the clock is in an earlier second than its next attempt |
| `Outbox.ReadyWhenReached` | internal/storage/sqlite/sqlite.go:612 | a pending delivery is claimable at a clock reading if and only if the clock has reached its scheduled time |
| `DeliveryWorker.DeliveryStore.CreateDelivery` | internal/storage/sqlite/sqlite.go:594-599 | adds a pending delivery with no attempts |
| `DeliveryWorker.DeliveryStore.ClaimNextDelivery` | internal/storage/sqlite/sqlite.go:605-636 | finds a delivery whenever the transaction goes through and some pending one is unscheduled or scheduled for a time the clock has reached; never one whose time it has not; of those the first created, ties by id |
| `DeliveryWorker.Worker.constructor` | internal/delivery/worker.go:48-65 | a new worker with defaulted configuration, over whatever deliveries earlier processes left behind, continues their run |
| `DeliveryWorker.DeliveryStore.Update` | internal/storage/sqlite/sqlite.go:667-699 | the three guarded updates, spelled out field by field, change a delivery only while it is in flight, conflict otherwise |
| `DeliveryWorker.Worker.ClaimOne` | internal/delivery/worker.go:109-117 | a claim takes the first ready delivery, if the worker is open and there is one, and counts the attempt |
| `DeliveryWorker.Worker.RetryOrFail` | internal/delivery/worker.go:162-171 | gives up once the budget is spent, and otherwise requeues the backoff delay from now |
| `DeliveryWorker.Worker.Settle` | internal/delivery/worker.go:138-155 | stores delivered for a status from 200 to 299, an immediate requeue for a shutdown, and retry or failure for the rest |
| `DeliveryWorker.Worker.Attempt` | internal/delivery/worker.go:118-155 | an attempt settles the claimed delivery by how it went, giving up at once when it cannot be built, and touches no other |
| `DeliveryWorker.Worker.One` | internal/delivery/worker.go:109-156 | one iteration performs only legal steps of the outbox and leaves all deliveries but the claimed one alone; that ends delivered if and only if it was answered with a status from 200 to 299, is retried the backoff delay later on a failure within the budget and given up on one beyond it |
| `Callbacks.CallbackBound` | cmd/gmlc/main.go:147-163 | over any run of pipeline and outbox together a request gives rise to at most one delivery, posted at most MaxAttempts times plus once per interrupting shutdown |
| `Callbacks.Reachable` | cmd/gmlc/main.go:147-163 | every delivery comes from a completion notice, and no two from the same request |
| `Batch.BatchKeyInjective` | internal/service/service.go:228 | no two (key, index) pairs share a derived key |
| `Batch.BatchKeyReads` | internal/service/service.go:228 | a derived key is the key, a hash mark and the index in decimal |
| `Batch.Service.Check` | internal/service/service.go:203-223 | none exactly when there is a target, every target is valid and authorised and the rest passed; otherwise a true reason, with no check made before its own failing |
| `Batch.Service.SubmitBatch` | internal/service/service.go:202-258 | a refused batch changes nothing; otherwise every target answered for gets the row first created under its key, rows created carry the target and the one shared subscription, and the record names the one row, if any, created for the target at which the call failed, which carries none |
| `Batch.Service.SubmitTargets` | internal/service/service.go:224-257 | the loop stops at the first failed store call, with all targets before it answered and at most one row of its own left without a subscription; under fresh keys every row is created |
| `Batch.Service.NextTarget` | internal/service/service.go:227-256 | one pass of the loop extends these promises by one target or stops |
| `Batch.Service.CreateTarget` | internal/service/service.go:228-233 | a row created is a fresh queued one with no attempts, under its own target; a key nobody else can name and nobody used is always created |
| `Batch.Service.Enter` | internal/service/service.go:234-245 | a row just created ends up recorded as carrying a subscription exactly if its registration succeeded |
| `Batch.Service.SubmitTarget` | internal/service/service.go:228-245 | a row created here carries its own target; it is left without a subscription only if its registration failed |
| `Batch.Service.Attach` | internal/storage/sqlite/sqlite.go:322-325 | appends to the row's subscriptions, whatever they were |
| `Batch.Service.Submit` | internal/service/service.go:125-168 | the same for one target under the client's own key |
| `Batch.Service.Create` | internal/storage/sqlite/sqlite.go:251-265 | creating under a taken key answers with the row first created under it |
| `Batch.Service.Register` | internal/service/service.go:113-123 | attaches one subscription to the row just created or leaves it without, while others act in between |
| `Batch.Service.Resubmit` | internal/service/service.go:191-258 | however often a batch is sent and whatever fails, every attempt answers each target it reaches with one and the same row, and every row created in any attempt carries a subscription if and only if its own attempt's registration succeeded |
| `Batch.RetriesConverge` | internal/service/service.go:191-258 | an accepted attempt has exactly one row per target, distinct for distinct targets, the same in every attempt, with at most one subscription ever attached to each |
| `Batch.LostCallback` | internal/service/service.go:234-245 | the state after a first registration failed: the row is there, every later attempt answers with it, and it never gets a subscription |
| `MlpWait.ExtractTargets` | internal/mlp/handler.go:322-336 | succeeds exactly when there are subscribers and all are MSISDNs, by default, or IMSIs, with one target each in order, trimmed and of that kind |
| `MlpWait.ExactlyOne` | internal/mlp/handler.go:455-475 | every position has a fix or an error and not both; a fix exactly for a request seen completed in time with coordinates, parsing back to them within half a milli-arcsecond, with the uncertainty stored as radius, zero if none |
| `MlpWait.Handler.Wait` | internal/mlp/handler.go:272-281 | the wait is the time asked for, or the default if none was, whenever that is within the maximum, and never more than the maximum |
| `MlpWait.Handler.AwaitTerminal` | internal/mlp/handler.go:289-304 | returns what the first poll to find the request settled read, and gives up only at the first poll at or after the deadline or when the client leaves |
| `MlpWait.Handler.SubmitAll` | internal/mlp/handler.go:241-257 | under a fresh key request i is the row created for target i, for one target and for several |
| `MlpWait.Handler.AwaitAll` | internal/mlp/handler.go:259-266 | position i is for subscriber i and built from a reading of request i; none is given up on before the deadline unless the client leaves, and the whole wait ends before the deadline plus one poll |
| `MlpWait.Handler.Resolve` | internal/mlp/handler.go:224-281 | a malformed request is refused before anything is created; otherwise one position per subscriber, in order, each from the request created for that subscriber's target, within the time asked for, the default if none, the maximum if more, plus 250 ms; and none is given up on earlier while the client is there |

## Left out

- Sockets, SCTP, HTTP, XML, the SQLite driver, migrations, configuration files and logging: foreign code; a store transaction is one atomic step.
- AVP encoding and decoding in internal/slg and internal/slh, apart from the MSISDN: flat field mapping over a library.
- Encryption, signatures and password hashing: opaque functions.
- internal/lrr and internal/mlp/push.go: one-branch dispatch.
- A commit that reports an error is taken to have had no effect.
- The columns of rows that steer nothing (serving node, quality of service, audit events, error descriptions, updated_at).
- PipelineSafety.TerminalForever: subscription_id, which SetRequestSubscription writes whatever the state, is not among the row's columns there; Batch follows it.
- Thinning.FetchedThinsToMaximum: gives a sufficient condition, and not a necessary one; for clashing rows the greedy choice may still be best, depending on all distances at once, and no simpler test than comparing lengths is given.
- Batch.Service.Attach: the subscriptions a row ever got are kept as a list, of which the column holds the last.
- MlpWait.Handler.SubmitAll: takes the randomly drawn key to be one nobody has used or can name.
- Expiry of requests: no code performs it.
- Several gateway processes on one database: there is one worker of each kind.
- Years beyond 9999 and time zones: instants are UTC with four-digit years.
- Float rounding, NaN and infinities, and the int64 overflow of coordinates beyond 2.5 * 10^12 degrees: coordinates and metres are reals. For coordinates that come from a GAD point the float computation is exact up to the rounding modelled.
- Uncertainty.Encode: the logarithm is any function that turns products into sums and keeps order, so rounding in math.Log is not modelled.
- Connections: the manager's loop is a step system rather than a class, because its interleaving with Close and selections is what matters; generations do not wrap at 64 bits.
- PeerTable.PeerTable.Select: host and realm names are folded to lower case in ASCII only.
- Correlation: goroutine scheduling is any interleaving of steps at mutex and channel operations; memory ordering below that is not modelled.
- Transport.TcpRoundTripper.Register: the write to the socket and the wait for the answer are steps of Correlation only.
- History.HistoryTable.RecordHistory: the DELETE of all rows beyond the newest 20 is carried out row by row; which of several rows with equal keys goes is left open.
- Batch: rows are never purged between attempts, and a plain key of the form "k#0" names the same row as index 0 of batch "k".
- Outbox.PostBudget: a 64-bit attempt counter does not overflow.
- MlpWait.Handler.Resolve: only poll sleeps take time, what a poll reads is an arbitrary function of request and time, and the result codes of whole-request refusals are not told apart.
- MLP's other services, quality-of-position parsing, priorities, and the rendering of radius and time texts.
