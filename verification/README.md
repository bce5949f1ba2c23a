# Pack-A-Mal in Dafny

A verified model of the parts of Pack-A-Mal whose correctness spans several functions or whole runs: the
analysis task queue and its Celery counterpart, the network mode controller with its rule engine, the timed
protocols (lease extension, request limit), and the byte-level parsers and streams. `dafny verify
dfyconfig.toml` checks everything.

## Layout

- `TaskTable`, `QueueManager`, `QueueProtocol`, `QueueGuarantees`, `QueueTimeouts`, `QueueProgress`, `QueueStop`,
  `QueueResults`: the task table, the queue manager's operations, its threads as a state machine over atomic
  transactions, and what holds over whole runs.
- `CeleryProtocol`, `CeleryTasks`, `CeleryGuarantees`, `CeleryRuns`, `CeleryDelivery`, `CeleryResults`: the same
  table driven by messages instead of a thread.
- `LeaseExtender`, `RateLimit`, `RateLimitOverlap`: two timed protocols with their whole-run theorems.
- `DecisionEngine`, `DecisionGuarantees`, `RuleConditions`, `RuleChanges`, `NetworkController`,
  `ControllerGuarantees`, `ControllerAnswers`, `ControllerRuns`, `TransparentMode`, `ConnectionCounts`,
  `NetworkRequest`: the network modes.
- `HttpInterceptor`, `LineLengths`, `ValueCounts`, `LogWriter`, `ByteStrings`: byte strings and lines.
- `Purl`, `PercentEncoding`: package URLs. `Strace`, `StringOrder`: recorded system calls.
- `Ordering`, `Sums`, `Decimal`, `Options`: shared definitions.

Code that changes state is modelled by classes and loops proved against specification functions; the theorems
are about those functions and about state machines that interleave them.

## Assumptions

- Queue and Celery: a `transaction.atomic` block is one step, clock readings strictly increase, the database
  does not fail, an analysis returns or raises. `report` is a plain shared reference, as the queue code uses it;
  the one-to-one constraint at models.py:89 belongs to the database. A submitted row object is fresh. There is
  one manager process; a crash of it is a step.
- Celery: a view saves its row as queued and sends the message afterwards, in a step of its own; its loss in
  between is a step. The message of a lost worker is delivered again, as late acknowledgement and rejection on
  loss (celery.py:23-24) provide; a run ended by the hard time limit (celery.py:27) is acknowledged, Celery's
  default.
- Request limit: the theorems of `RateLimit` are about checks that do not overlap; `RateLimitOverlap` splits a
  check at its cache read and write (auth.py:70-77) and lets checks overlap.
- Lease: ticks are not later than their time, each extension is back within the stated bound, and the ticker
  drops a tick that was not taken when it is stopped, as Go 1.23 does (dynamic-analysis/go.mod:3).
- Regular expressions, hashes and the outcome of an analysis are parameters.

## What the proofs showed

- `add_task_to_queue` has no status guard (queue_manager.py:43-75): completed and failed are final except for a
  resubmission of that very row.
- The worker sweeps for timeouts only between tasks, so a live analysis never times out (`SweepFindsOrphans`);
  only rows orphaned by a crash do (`OnlyOrphansExpire`). Both happen (`LiveAnalysisOverruns`, `OrphanExpires`).
- A row submitted while a stopped worker finishes its analysis finds the worker alive and stays queued after the
  worker has exited; `SubmissionServedIff` says exactly when a submission is served.
- On the Celery path one row at most has status running, but one container does not follow from the
  transactions; it rests on deploying a single worker (celery.py:18). Over whole runs, two containers are avoided
  if and only if no opening transaction finds its row not completed and without a result, no other row running,
  and an execution at work (`SingleContainerIff`). Two ways to that are reachable with two workers and a reliable
  broker: dispatch repeats a message and the opening transaction excludes its own row
  (`RedispatchAddsContainer`), and the timeout check fails a row whose execution goes on, as the container it
  would stop is only known after the analysis (tasks.py:137-145), so that another row is started beside it
  (`ExpiryAddsContainer`).
- On the Celery path a queued row is forgotten in exactly two ways (`NoRowIsForgottenIff`): its view is lost, or
  fails to send in the form view (views.py:307), after the row was saved; or the hard time limit ends an execution
  that had not decided yet or was about to fail the row, and the row has no other. Loss of a worker forgets none.
- A queued row whose message arrives while another row runs is retried once. The second time it is failed without
  an analysis (`GivesUpIff`, `RowIsGivenUp`).
- The extender starts and a lease is safe exactly for deadlines of whole seconds of more than one minute and at
  most ten. One minute, the grace period, passes the check at extender.go:90 and makes the ticker panic
  (`StartPanicsIff`).
- While checks do not overlap, the request limit bounds every hour, but it is stricter than a limit per hour: a
  client that stays below the limit can be refused. Overlapping checks lose updates, and each lost update can
  cost one more limit in the hour (`OverlappingLimit`, `OverlapExceedsLimit`).
- The decision cache ignores method, headers and size; the default rules are stale under it. `AddRule` does not
  clear it, and the sort turns rules of equal priority around: `AddedRuleAgreesIff` says when cached decisions
  survive an addition, `AddedRuleKeepsCacheIff` what that means for the new rule when there are no ties, and
  `AddedRuleMatches` when fresh decisions survive.
- A wildcard `*.example.com` in a domain rule asks for no dot: it covers `notexample.com` as well
  (`WildcardNeedsNoDot`).
- Whatever is resubmitted, swept, crashed or delivered twice, a row carries only reports that an analysis of its own
  package has saved (`ReportsAreOwn`, on both paths).
- Outcome counters never exceed the total, without the conditions that equality needs.
- `parse_purl` splits a namespace at its first slash, and misreads a literal at sign in namespace or name.
- Socket keys sort ports numerically only below 100000. Command keys do not tell all commands apart, so commands
  can be missing from the listing.
- The HTTP parser knows `Host` in that spelling only, although field names have no case: with `host` the domain
  stays empty.
- A configuration without a logging section validates, and then creating the controller panics.

## Model

| member | source | states |
|---|---|---|
| QueueGuarantees.BoundedWaiting | web/packamal/package_analysis/queue_manager.py:148-219 | in any run, while a row with k rows ahead in (-priority, queued_at) order stays queued, the worker makes at most k + 1 selections that no running row puts off, plus one per crash, whatever of equal or lower priority arrives |
| QueueGuarantees.QueueIsSound | web/packamal/package_analysis/queue_manager.py:139-174 | every reachable state of every interleaving has at most one live worker and one running row; a row has a position exactly when queued, positions are distinct, positive and ordered as arrivals within a priority; both orders pick the same head |
| QueueGuarantees.FinishedIsFinal | web/packamal/package_analysis/queue_manager.py:43-75 | a completed or failed row keeps status and report in every step, if and only if the step is not a resubmission of that row |
| QueueGuarantees.StartsOnlyUnsolved | web/packamal/package_analysis/queue_manager.py:221-238 | a row becomes running only when no row runs and no completed row of its package has a report, or by the heartbeat save over a row resubmitted during its own analysis |
| QueueProgress.BoundedSteps | web/packamal/package_analysis/queue_manager.py:148-174 | in a run without a crash or a stop, a row that stays queued with k rows ahead of it sees at most 8 (k + 2) steps of the worker |
| QueueTimeouts.FailsIff | web/packamal/package_analysis/queue_manager.py:353-425 | in every state, crashes included, a step fails a running row if and only if it is a sweep more than 60 times the limit in minutes after the row's start, which marks it as timed out, or the end of its own failed analysis, which records its category |
| QueueTimeouts.SweepFindsOrphans | web/packamal/package_analysis/queue_manager.py:158-165 | in every state a worker that sweeps is alone, so no row it finds running is one that a live worker analyses |
| QueueTimeouts.TimeoutsNeverFire | web/packamal/package_analysis/queue_manager.py:353-377 | in runs without a crash no timeout sweep of the worker fails a row, however long an analysis lasts |
| QueueTimeouts.OnlyOrphansExpire | web/packamal/package_analysis/queue_manager.py:353-377 | a run in which a row is failed as timed out contains a crash before |
| QueueTimeouts.LiveAnalysisOverruns | web/packamal/package_analysis/queue_manager.py:353-377 | a run without a crash that reaches a row running past its limit under a live worker |
| QueueTimeouts.OrphanExpires | web/packamal/package_analysis/queue_manager.py:353-377 | a run with a crash after which the next worker's sweep fails the row left running |
| QueueTimeouts.NoOrphansKept | web/packamal/package_analysis/queue_manager.py:148-174 | outside a crash every running row stays the row that a live worker analyses |
| QueueStop.SubmissionServedIff | web/packamal/package_analysis/queue_manager.py:139-146 | a submission makes sure of a worker that keeps serving if and only if no live worker has been told to stop |
| QueueStop.StoppedWorkerLeavesRow | web/packamal/package_analysis/queue_manager.py:340-346 | a row submitted behind a stopping worker that is past its selection is still queued when the worker has exited, whatever the worker does |
| QueueStop.RowIsLeftBehind | web/packamal/package_analysis/queue_manager.py:340-346 | a run that leaves a row behind in this way |
| QueueGuarantees.WaitStep | web/packamal/package_analysis/queue_manager.py:176-219 | one step: a selection uses up one unit of the wait of a queued row and nothing but a crash lengthens it |
| QueueProtocol.StepKeepsInv | web/packamal/package_analysis/queue_manager.py:139-174 | every atomic step of submitters, start and stop calls and the worker keeps the inductive invariant of the protocol |
| TaskTable.HeadsAgree | web/packamal/package_analysis/queue_manager.py:183-219 | the head by (-priority, queue_position) is the head by (-priority, queued_at) |
| TaskTable.RenumberedCounts | web/packamal/package_analysis/queue_manager.py:327-338 | a renumbering gives exactly 1..n in queue order |
| TaskTable.RenumberedKeepsOk | web/packamal/package_analysis/queue_manager.py:327-338 | a renumbering keeps positions and arrivals in agreement |
| TaskTable.DrainPrefix | web/packamal/package_analysis/queue_manager.py:183-219 | the recursive selection completes exactly the longest prefix of the queue whose packages have a result, renumbers the rest, and returns the first unsolved row |
| TaskTable.DrainEffect | web/packamal/package_analysis/queue_manager.py:183-219 | a selection leaves running and finished rows alone and returns a row that is queued, first in order and without a result |
| TaskTable.DrainReuses | web/packamal/package_analysis/queue_manager.py:190-213 | a queued row that a selection completes takes report and URL of the completed row of its package that the runner's query lists first before the selection, the lowest id for the manager and the latest completion for Celery, is completed now and off the queue, and keeps every other field; any other queued row can only change its position |
| TaskTable.SolvedIff | web/packamal/package_analysis/queue_manager.py:192-197 | a package has a result exactly when some completed row of it has a report; Celery asks for a package URL that is not blank as well |
| TaskTable.AheadIff | web/packamal/package_analysis/queue_manager.py:183-188 | the rows ahead are the queued ones of higher priority, and of the same one those queued earlier |
| TaskTable.ExpiresIff | web/packamal/package_analysis/models.py:103-110 | a running row is failed as timed out exactly when more than sixty seconds for each minute of its limit have passed since its start, and no other row changes |
| TaskTable.LimitIsExact | web/packamal/package_analysis/models.py:103-110 | thirty minutes from second 0 are not over at second 1800 and are at 1801 |
| TaskTable.ListsUnique | web/packamal/package_analysis/queue_manager.py:332-336 | the queue has one order by (-priority, queued_at) |
| QueueManager.EnqueuedKeepsOk | web/packamal/package_analysis/queue_manager.py:53-68 | adding any row to the queue, as AddTaskToQueue does, keeps positions distinct and ordered as arrivals |
| QueueManager.NextPositionIsFree | web/packamal/package_analysis/queue_manager.py:53-60 | the position that AddTaskToQueue returns is above every position in use, and one past one of them or 1 |
| QueueManager.SavePositions | web/packamal/package_analysis/queue_manager.py:327-338 | the row-by-row loop refines the renumbering |
| QueueManager.QueueManager.GetNextTask | web/packamal/package_analysis/queue_manager.py:176-219 | the recursion terminates and refines the drain of the solved prefix, whose effect on each row is that of `TaskTable.DrainReuses` |
| QueueManager.QueueManager.CheckTimeouts | web/packamal/package_analysis/queue_manager.py:353-425 | the loop over timed-out rows refines the sweep, and leaves a running row failed if and only if more than 60 times its limit in minutes has passed since its start |
| QueueManager.QueueManager.ProcessTask | web/packamal/package_analysis/queue_manager.py:221-325 | the saves of one analysis, at their own clock readings and with nothing in between, leave the row with its own report, URL, times and heartbeat, or failed with the error's category and its results as they were, and renumber the queue |
| QueueResults.CompletesBy | web/packamal/package_analysis/queue_manager.py:190-291 | a row becomes completed in three ways only: by the selection, with the result it reuses; by the report of its own analysis; or with its own report and URL over a submission of the same row meanwhile |
| QueueResults.AnalysisWrites | web/packamal/package_analysis/queue_manager.py:264-291 | the worker's saves leave report, time and URL of this analysis in the row it analyses |
| QueueResults.StartWrites | web/packamal/package_analysis/queue_manager.py:229-261 | starting a row and the heartbeat write status, times and position of that row and touch no other |
| QueueResults.ReportsAreOwn | web/packamal/package_analysis/queue_manager.py:176-325 | in every run, crashes and resubmissions included, the report of a row was saved by an analysis of the same package |
| CeleryGuarantees.AtMostOneRowRuns | web/packamal/package_analysis/tasks.py:40-97 | over every interleaving of deliveries, duplicates, retries, timeouts, cleanups and losses, at most one row has status running |
| CeleryDelivery.NoRowIsForgottenIff | web/packamal/package_analysis/views.py:874-892 | in every state of a run each queued row has a message waiting, a view about to send one, or an execution of its own that has not decided yet or is about to fail it, if and only if no step of the run loses the view or ends by the hard time limit the execution that was the last to tend its row |
| CeleryDelivery.StepStrandsIff | web/packamal/package_analysis/tasks.py:40-408 | one step: exactly the loss of the last view and the time limit of the last execution of a row break that; every transaction, duplicate, retry, failed send the view answers, and lost worker keeps it |
| CeleryDelivery.LostViewStrands | web/packamal/package_analysis/views.py:270-298 | a reachable state in which the loss of a view between save and send leaves its row to nobody |
| CeleryDelivery.TimeLimitStrands | web/packamal/packamal/celery.py:22-28 | a reachable state in which the time limit does, before the execution has started its row |
| CeleryGuarantees.SecondContainerIff | web/packamal/package_analysis/tasks.py:40-97 | in any state in which one execution analyses a row, the opening transaction of another leaves two containers if and only if its row exists, is not completed, has no result and no other row is running; then it is the same row, or the analysed row is gone or no longer marked running |
| CeleryGuarantees.SingleContainerIff | web/packamal/package_analysis/tasks.py:40-97 | every state of a run has at most one container, if and only if no step of the run is such an opening transaction while another execution is at work |
| CeleryGuarantees.SingleContainer | web/packamal/package_analysis/tasks.py:40-192 | a guard on rows that implies it: no row is handed to two executions at once and no row is marked failed while it is analysed |
| CeleryGuarantees.TimeoutAddsContainer | web/packamal/package_analysis/tasks.py:313-376 | whenever the timeout check expires a row under analysis and the queue has a row to offer, two steps later two containers run |
| CeleryRuns.ExpiryAddsContainer | web/packamal/package_analysis/tasks.py:313-376 | this happens: with a reliable broker, a run of submissions, one analysis and one timeout check ends with two containers for different rows |
| CeleryRuns.RedispatchAddsContainer | web/packamal/package_analysis/tasks.py:246-294 | with two workers, one container does not follow even without crash, timeout or duplicate delivery: a run of submissions and dispatches that ends with two containers for one row |
| CeleryRuns.GivesUpIff | web/packamal/package_analysis/tasks.py:40-53 | the opening transaction of a queued row gives it up, to be failed without an analysis, if and only if another row runs and the retry is used up |
| CeleryRuns.RowIsGivenUp | web/packamal/package_analysis/tasks.py:40-53 | this happens: with a reliable broker a run ends with a row failed that was never started |
| CeleryGuarantees.DispatchServesQueue | web/packamal/package_analysis/tasks.py:246-294 | dispatch while nothing runs completes exactly the solved prefix and sends one message, for the first unsolved row; otherwise nothing |
| CeleryResults.BeginWrites | web/packamal/package_analysis/tasks.py:55-97 | the opening transaction, while no other row runs, completes a row of a solved package with the result of the row completed last, leaves a completed one alone and starts any other |
| CeleryResults.AnalysisSteps | web/packamal/package_analysis/tasks.py:101-153 | a cache hit completes the row with the results it had; otherwise a row still running gets a heartbeat |
| CeleryResults.AnalysisWrites | web/packamal/package_analysis/tasks.py:164-189 | an analysis leaves its own report, then its own URL |
| CeleryResults.FailureWrites | web/packamal/package_analysis/tasks.py:207-228 | an execution that raised fails its row with the error's category and keeps the results |
| CeleryResults.SendFailureWrites | web/packamal/package_analysis/views.py:917-925 | a view that fails to send fails its row and no other |
| CeleryResults.ReportsAreOwn | web/packamal/package_analysis/tasks.py:40-408 | in every run, duplicates, losses and clean-ups included, the report of a row was saved by an analysis of the same package |
| CeleryProtocol.OnlyBeginStarts | web/packamal/package_analysis/tasks.py:40-97 | no transaction but the opening one makes a row running |
| CeleryProtocol.DispatchSparesRunning | web/packamal/package_analysis/tasks.py:246-294 | dispatching leaves running rows as they are and makes none |
| CeleryProtocol.StepKeepsInv | web/packamal/package_analysis/tasks.py:40-408 | every transaction keeps at most one running row |
| CeleryTasks.CeleryTasks.ProcessNextQueuedTask | web/packamal/package_analysis/tasks.py:246-294 | the recursion terminates and refines the dispatch, whose effect on each row is that of `TaskTable.DrainReuses` |
| CeleryTasks.CeleryTasks.CheckTimeouts | web/packamal/package_analysis/tasks.py:313-376 | the loop leaves a running row failed if and only if more than 60 times its limit in minutes has passed since its start, and dispatches if there was one |
| CeleryTasks.CeleryTasks.CleanupOldTasks | web/packamal/package_analysis/tasks.py:380-408 | exactly the completed and failed rows with a completion time before the cut-off are deleted, and no other row changes |
| LeaseExtender.LeaseSafety | dynamic-analysis/cmd/worker/pubsubextender/extender.go:104-124 | the lease survives every run with successful extensions if and only if each lease covers one tick interval plus the service bound |
| LeaseExtender.ExtenderSafety | dynamic-analysis/cmd/worker/pubsubextender/extender.go:88-143 | for every deadline: the goroutine starts and keeps the lease in every run if and only if the deadline is more than the grace period, at most ten minutes and whole seconds |
| LeaseExtender.StartPanicsIff | dynamic-analysis/cmd/worker/pubsubextender/extender.go:88-97 | starting panics for exactly one deadline, sixty seconds, which the service allows, and refuses exactly the shorter ones |
| LeaseExtender.GrantedCovers | dynamic-analysis/cmd/worker/pubsubextender/gcpdriver.go:54-75 | the clamped and truncated deadline covers the requested one exactly in that range |
| LeaseExtender.LeaseEndsAfterLast | dynamic-analysis/cmd/worker/pubsubextender/extender.go:104-124 | in every run the lease ends one lease after the time of the last extension that succeeded |
| LeaseExtender.StopReportsLast | dynamic-analysis/cmd/worker/pubsubextender/extender.go:132-143 | Stop returns the result of the last extension, so success exactly when all succeeded |
| LeaseExtender.NothingAfterStop | dynamic-analysis/cmd/worker/pubsubextender/extender.go:104-124 | no extension after Stop has returned |
| LeaseExtender.StopCompletes | dynamic-analysis/cmd/worker/pubsubextender/extender.go:132-143 | the done/exited handshake never deadlocks: at most three steps let a waiting Stop return |
| RateLimit.HourlyLimit | web/packamal/package_analysis/auth.py:63-82 | every half-open hour of every ordered trace has at most the limit of accepted requests of a key, although each accept renews the expiry |
| RateLimit.AcceptedIff | web/packamal/package_analysis/auth.py:63-82 | a request is accepted if and only if the unbroken burst of accepted requests before it is shorter than the limit |
| RateLimit.CountIsBurst | web/packamal/package_analysis/auth.py:63-82 | the cached count is the length of that burst |
| RateLimit.PauseReopens | web/packamal/package_analysis/auth.py:63-82 | an hour after the last accepted request a positive limit accepts again |
| RateLimit.SlowClientRefused | web/packamal/package_analysis/auth.py:63-82 | the limit is not per hour: a client below it is refused |
| RateLimit.HourIsExact | web/packamal/package_analysis/auth.py:76-80 | under a limit of one the next request is accepted exactly from second 3600 on |
| RateLimitOverlap.OverlappingLimit | web/packamal/package_analysis/auth.py:69-77 | however checks overlap, every half-open hour has at most one limit of accepted requests of a key, plus one limit for each update lost in it |
| RateLimitOverlap.OverlapExceedsLimit | web/packamal/package_analysis/auth.py:69-77 | two overlapping checks are both accepted under a limit of one |
| DecisionGuarantees.AgreesIff | dynamic-analysis/internal/networkmode/decision.go:220-281 | for any rules and any cache, cached decisions equal cache-free ones on every request sequence if and only if every cached decision is what the rules decide now and requests with one new key are decided alike |
| DecisionGuarantees.CacheAgreesIff | dynamic-analysis/internal/networkmode/decision.go:220-281 | from a cleared cache: if and only if requests with one key are decided alike |
| DecisionGuarantees.CacheRefinesFresh | dynamic-analysis/internal/networkmode/decision.go:220-281 | a guard that implies it: enabled conditions read only protocol, domain and path, and neither protocol nor domain has a colon |
| DecisionGuarantees.KeyIsInjective | dynamic-analysis/internal/networkmode/decision.go:412-414 | for such requests the keys are equal exactly when the three fields are |
| DecisionGuarantees.DefaultRulesGoStale | dynamic-analysis/internal/networkmode/decision.go:427-504 | with the default rules a GET gets the decision cached for a large POST |
| RuleChanges.AddedRuleAgreesIff | dynamic-analysis/internal/networkmode/decision.go:188-195 | a cache filled before stays in agreement after AddRule, on every request sequence, if and only if the new list decides the cached requests as the old one did |
| RuleChanges.AddedRuleMatches | dynamic-analysis/internal/networkmode/decision.go:188-217 | without ties, the new list matches the new rule exactly when it applies and ranks above the old match, and the old match otherwise |
| RuleChanges.AddedRuleKeepsCacheIff | dynamic-analysis/internal/networkmode/decision.go:188-217 | when no cached request has ties, that agreement holds if and only if every cached request that the new rule takes, by applying and ranking above the old match, had the new rule's decision already |
| RuleChanges.AddedRuleGoesStale | dynamic-analysis/internal/networkmode/decision.go:188-195 | a rule whose addition makes a cached decision stale |
| RuleChanges.SortTurnsTies | dynamic-analysis/internal/networkmode/decision.go:208-217 | the exchange sort turns two rules of one priority around when a third comes first |
| RuleChanges.UnrelatedRuleTurnsDecision | dynamic-analysis/internal/networkmode/decision.go:208-217 | so adding a rule that does not apply can change a fresh decision |
| DecisionGuarantees.MatchedIsHighest | dynamic-analysis/internal/networkmode/decision.go:229-281 | the matched rule has the highest priority of all that apply, and none is matched exactly when none applies |
| RuleConditions.AppliesIff | dynamic-analysis/internal/networkmode/decision.go:284-409 | for every kind of condition when it holds of a request: domains with wildcards, extensions, methods and protocols in any case, the first Content-Type header, uploads by method and size |
| RuleConditions.WildcardRuleIff | dynamic-analysis/internal/networkmode/decision.go:323-344 | a rule on `*.tail` applies to every domain that ends in the tail, in any case, and to no other |
| RuleConditions.WildcardNeedsNoDot | dynamic-analysis/internal/networkmode/decision.go:334-340 | a domain that ends in the same letters without a dot before them is blocked as well |
| RuleConditions.DecisionIsFirst | dynamic-analysis/internal/networkmode/decision.go:229-281 | without a cached decision the first rule that applies gives action, name, reason and modifier, and the default action is given when none applies |
| RuleConditions.DefaultDecisions | dynamic-analysis/internal/networkmode/decision.go:427-504 | what half mode decides with the rules it starts with, for every request: block known C2 domains, else forward to known CDNs, else intercept executables and large POSTs, else simulate |
| RuleConditions.KnownC2IsBlocked | dynamic-analysis/internal/networkmode/decision.go:220-281 | in every run of requests without colons in protocol and domain the default rules block each request to a known C2 domain, whatever has been cached |
| DecisionEngine.DecisionEngine.AddRule | dynamic-analysis/internal/networkmode/decision.go:188-195 | an invalid action is refused; otherwise the rules are sorted by priority and a permutation of the old ones and the new one |
| DecisionEngine.DecisionEngine.AddRules | dynamic-analysis/internal/networkmode/decision.go:198-205 | stops at the first invalid action with the rules before it added |
| DecisionEngine.SortedIsSorted | dynamic-analysis/internal/networkmode/decision.go:208-217 | the exchange sort gives non-increasing priorities and a permutation |
| DecisionEngine.DecisionEngine.SortRulesByPriority | dynamic-analysis/internal/networkmode/decision.go:208-217 | the in-place loops are that sort |
| DecisionEngine.DecisionEngine.Decide | dynamic-analysis/internal/networkmode/decision.go:220-281 | the scan with the cache refines the first applicable rule |
| ControllerGuarantees.FullModeIsolates | dynamic-analysis/internal/networkmode/controller.go:225-243 | in every run of mode switches, rule additions and requests, full mode answers with a simulation, or fails exactly when no services are configured |
| ControllerGuarantees.RealIff | dynamic-analysis/internal/networkmode/router.go:119-152 | an answer comes from the real destination if and only if both copies of the mode are half mode and the decision forwards, or modifies without a panic or a sandboxed answer |
| ControllerAnswers.BlockedIff | dynamic-analysis/internal/networkmode/router.go:134-208 | blocked is answered if and only if both copies of the mode are half mode, there is an engine and the decision is to block |
| ControllerAnswers.PassesIff | dynamic-analysis/internal/networkmode/router.go:28-116 | the packet is let through if and only if transparent mode handles it, or the router reads transparent mode for a request that reaches it and whose answer is not replaced |
| ControllerAnswers.SandboxedIff | dynamic-analysis/internal/networkmode/controller.go:289-365 | when the answer is replaced by a sandboxed one, exactly |
| ControllerAnswers.SimulatedIff | dynamic-analysis/internal/networkmode/router.go:49-90 | when a simulation is answered, exactly |
| ControllerAnswers.NoAnswerIff | dynamic-analysis/internal/networkmode/router.go:217-225 | handling fails exactly when the router turns to services that are missing, panics exactly when half mode does not reach the router, and there are no other answers |
| ControllerAnswers.NoDecisionIff | dynamic-analysis/internal/networkmode/router.go:119-122 | the router refuses a request without a decision in half mode only |
| ControllerAnswers.SimulatedByOwnService | dynamic-analysis/internal/networkmode/router.go:217-262 | a simulated answer comes from the service of the request's own protocol, or HTTP's address when it has none |
| ControllerAnswers.StatsAfter | dynamic-analysis/internal/networkmode/controller.go:130-365 | all six counters after one request: the total moves by one, every other exactly in its own case |
| ControllerAnswers.CountersFollowAnswers | dynamic-analysis/internal/networkmode/controller.go:130-365 | in every setup that a run reaches, blocked counts exactly the blocked answers, forwarded those that pass or are forwarded, modified the modified ones, and simulated the simulations and failures |
| ControllerAnswers.ValidatesIff | dynamic-analysis/internal/networkmode/mode.go:284-322 | a configuration validates if and only if it has what its mode needs |
| ControllerAnswers.ProblemIff | dynamic-analysis/internal/networkmode/mode.go:284-322 | each problem is reported exactly in its own case |
| ControllerGuarantees.FullModeLeaksIff | dynamic-analysis/internal/networkmode/router.go:28-45 | were the two copies of the mode to differ, full mode would answer otherwise than simulated if and only if the router reads transparent mode |
| ControllerGuarantees.FailSafeUnreachable | dynamic-analysis/internal/networkmode/controller.go:248-286 | in every run, transparent mode passes and the fail-safe branch is never taken |
| ControllerGuarantees.AlwaysSound | dynamic-analysis/internal/networkmode/controller.go:373-418 | in every run the controller and the router agree on the mode, and the mode has its components |
| ControllerGuarantees.OutcomesNeverExceedTotal | dynamic-analysis/internal/networkmode/controller.go:431-449 | at every point of every interleaving forwarded + blocked + modified + simulated is at most the total, with no condition |
| ControllerGuarantees.OutcomesEqualTotalIff | dynamic-analysis/internal/networkmode/controller.go:130-222 | at rest the outcomes equal the total without errors if and only if every request was accountable |
| ControllerGuarantees.OnceIff | dynamic-analysis/internal/networkmode/controller.go:289-365 | which requests count as exactly one outcome and no error, exactly, also when the two copies of the mode differ |
| ControllerRuns.ConfiguredRunConserves | dynamic-analysis/internal/networkmode/controller.go:130-222 | in every run of a fresh controller, with mode switches, rule additions, cache clearings and interleaved requests: with services, a traffic modifier, a valid default action that does not modify, added rules that carry a modifier when they modify, and header maps, the outcomes equal the total without errors at rest |
| ControllerGuarantees.DecisionsAreUsable | dynamic-analysis/internal/networkmode/decision.go:220-281 | usable rules and default action give usable decisions, cached or not |
| NetworkController.Controller.SwitchMode | dynamic-analysis/internal/networkmode/controller.go:373-418 | a refused switch changes nothing; otherwise both copies of the mode change and missing components are created |
| NetworkController.Controller.HandleRequest | dynamic-analysis/internal/networkmode/controller.go:130-222 | outcome and counters of one request, with the decision that cache and rules give; what they are is stated by `ControllerAnswers` |
| NetworkController.Controller.HandleHalfMode | dynamic-analysis/internal/networkmode/controller.go:289-365 | outcome and counters in half mode, including the recovered panics of the modifier; what they are is stated by `ControllerAnswers` |
| NetworkController.Controller.AddDecisionRule | dynamic-analysis/internal/networkmode/controller.go:452-462 | rules are added in half mode only |
| NetworkController.Controller.Health | dynamic-analysis/internal/networkmode/controller.go:524-553 | healthy exactly when the configuration has what the current mode needs, all component checks included |
| NetworkController.NewController | dynamic-analysis/internal/networkmode/controller.go:52-126 | rejected exactly when the configuration does not validate, a panic exactly when it does but has no logging section, else a controller with the components of its mode |
| TransparentMode.CountersConserve | dynamic-analysis/internal/networkmode/transparent.go:184-293 | in every interleaving connections counted equal the table size, protocol counts plus unknown equal them, and observed bytes plus those of open requests equal the bytes of all connections |
| TransparentMode.TransparentModeHandler.TrackConnection | dynamic-analysis/internal/networkmode/transparent.go:235-293 | the connection table and counters after one request |
| ConnectionCounts.ConnectionKeyIsInjective | dynamic-analysis/internal/networkmode/transparent.go:235-239 | requests share a connection if and only if addresses, ports and protocol are the same, IPv6 included |
| ConnectionCounts.ClassifiedBy | dynamic-analysis/internal/networkmode/transparent.go:297-340 | the protocol is the one the request names in any case, else that of its port, else that of its payload, else unknown |
| ConnectionCounts.OpeningCounts | dynamic-analysis/internal/networkmode/transparent.go:259-293 | a request that opens a connection is counted once in the total, by transport and by protocol, and the connection has its fields |
| ConnectionCounts.LaterCounts | dynamic-analysis/internal/networkmode/transparent.go:244-256 | a later request adds its bytes, brings a domain, and a protocol if it was unknown, and counts nothing |
| ConnectionCounts.PassingCounts | dynamic-analysis/internal/networkmode/transparent.go:193-206 | payload, ICMP and byte counters after the lock is released |
| ConnectionCounts.TransportsAreCounted | dynamic-analysis/internal/networkmode/transparent.go:279-285 | in every state of every interleaving the TCP and UDP counters are the numbers of connections of that transport |
| TransparentMode.TransparentModeHandler.HandleRequest | dynamic-analysis/internal/networkmode/transparent.go:184-231 | the whole request, which always passes |
| HttpInterceptor.RequestRoundTrip | dynamic-analysis/internal/networkmode/interceptor.go:127-159 | rendering any request by sections 3 and 5 of RFC 9112 and parsing it gives back method, path and exactly the headers, the last value of a repeated name winning, and as domain the last value of a field named exactly Host, else nothing, for any body |
| HttpInterceptor.LowerCaseHostIsMissed | dynamic-analysis/internal/networkmode/interceptor.go:143-159 | a request with the field host, which HTTP takes for the same name, gets no domain |
| HttpInterceptor.MethodsAreIdentified | dynamic-analysis/internal/networkmode/interceptor.go:94-124 | rendered requests with a standard method are taken for HTTP, or HTTPS on port 443, and parsed |
| HttpInterceptor.IdentifiedBy | dynamic-analysis/internal/networkmode/interceptor.go:94-124 | what any payload is taken for, by its first bytes and the port |
| HttpInterceptor.SeparatorsAreAscii | dynamic-analysis/internal/networkmode/interceptor.go:127-217 | lines, words and fields are cut at LF, CR, tab, space and colon |
| HttpInterceptor.HttpRequest.ParseHTTPRequest | dynamic-analysis/internal/networkmode/interceptor.go:127-159 | the fields after parsing any payload |
| HttpInterceptor.HttpRequest.IdentifyProtocol | dynamic-analysis/internal/networkmode/interceptor.go:94-124 | the protocol and fields after any payload |
| HttpInterceptor.SplitLines | dynamic-analysis/internal/networkmode/interceptor.go:165-182 | the index loop yields the lines without LF or CR LF, every slice being in range |
| HttpInterceptor.SplitSpaces | dynamic-analysis/internal/networkmode/interceptor.go:184-196 | the index loop yields the maximal stretches without a space |
| HttpInterceptor.TrimSpace | dynamic-analysis/internal/networkmode/interceptor.go:207-217 | the loops refine trimming |
| HttpInterceptor.TrimmedIsTrimmed | dynamic-analysis/internal/networkmode/interceptor.go:207-217 | trimming removes only blanks, and leaves none at the ends |
| HttpInterceptor.TrimmedIsUnique | dynamic-analysis/internal/networkmode/interceptor.go:207-217 | there is one such result |
| LogWriter.ChunkingIndependence | dynamic-analysis/internal/log/writer.go:34-67 | any cut of a stream into chunks leaves the log and buffer of one write of the whole stream |
| LogWriter.LoggedIsText | dynamic-analysis/internal/log/writer.go:34-78 | a text of lines and an unterminated rest is logged as its trimmed non-blank lines and then, by Close, the rest as it is |
| LogWriter.WriteTwice | dynamic-analysis/internal/log/writer.go:34-67 | two writes equal one write of both |
| LogWriter.TrimRightIff | dynamic-analysis/internal/log/writer.go:56-58 | trimming removes exactly the white space characters at the end, in UTF-8 |
| LogWriter.SpacesAreWhiteSpace | dynamic-analysis/internal/log/writer.go:56-58 | what is trimmed is exactly the UTF-8 form of the Unicode white space characters |
| LogWriter.Writer.Write | dynamic-analysis/internal/log/writer.go:34-67 | reports the whole length and refines the line-wise logging |
| LogWriter.Writer.Close | dynamic-analysis/internal/log/writer.go:72-78 | logs a non-empty rest untrimmed |
| LineLengths.SplittersAgreeIff | dynamic-analysis/internal/staticanalysis/linelengths/line_lengths.go:39-75 | the two independent splitters agree on a text if and only if it is not empty |
| LineLengths.LengthsAddUp | dynamic-analysis/internal/staticanalysis/linelengths/line_lengths.go:39-75 | lengths plus LFs plus CRs before LFs add up to the bytes |
| LineLengths.GetLineLengths | dynamic-analysis/internal/staticanalysis/linelengths/line_lengths.go:39-75 | the reading loop yields the lengths of the lines |
| ValueCounts.CountKeepsTotal | dynamic-analysis/pkg/valuecounts/value_counts.go:45-51 | values times counts add up to the sum of the data |
| ValueCounts.LineLengthCounts | dynamic-analysis/pkg/valuecounts/value_counts.go:45-51 | counted line lengths account for every byte of the text |
| ValueCounts.Count | dynamic-analysis/pkg/valuecounts/value_counts.go:45-51 | each value with its multiplicity, and no other |
| ValueCounts.ToPairs | dynamic-analysis/pkg/valuecounts/value_counts.go:72-86 | the entries in strictly increasing order of value |
| ValueCounts.FromPairs | dynamic-analysis/pkg/valuecounts/value_counts.go:90-101 | fails exactly on a repeated value, else returns the map with these entries |
| ValueCounts.PairsRoundTrip | dynamic-analysis/pkg/valuecounts/value_counts.go:72-101 | FromPairs undoes ToPairs for all counts |
| ValueCounts.CountsRoundTripIff | dynamic-analysis/pkg/valuecounts/value_counts.go:72-101 | ToPairs undoes FromPairs if and only if the pairs were increasing |
| ValueCounts.ValueCounts.UnmarshalPairs | dynamic-analysis/pkg/valuecounts/value_counts.go:118-132 | replaces the counts, or keeps them on failure |
| Purl.RoundTripIff | web/packamal/package_analysis/utils.py:24-94 | parsing a rendered component gives back its package (for Maven group:artifact) if and only if the namespace has at most one segment and no at sign in namespace or name is left unescaped |
| Purl.ParsedRender | web/packamal/package_analysis/utils.py:24-94 | what parsing a rendered component gives, for any namespace, any qualifiers and any choice of unescaped characters without a literal at sign in the path |
| Purl.EcosystemsAgree | web/packamal/package_analysis/utils.py:143-154 | acceptance is a known type and a separator, and both functions name the same ecosystem |
| Purl.EcosystemNames | web/packamal/package_analysis/utils.py:15-49 | the five types and the names of their ecosystems; every other type is refused |
| Purl.QualifiersRoundTrip | web/packamal/package_analysis/utils.py:98-106 | rendered qualifiers parse to the same map, in any order |
| Purl.NpmNameIsWhole | web/packamal/package_analysis/utils.py:109-129 | for npm the package name is the whole path, however deep the namespace, when no at sign in it is left unescaped |
| Purl.LiteralAtTakesVersion | web/packamal/package_analysis/utils.py:58-64 | a literal at sign in the path always changes the version that is parsed |
| Purl.LiteralScopeIsMisread | web/packamal/package_analysis/utils.py:122-123 | an npm scope with a literal at sign, the form of the source's own comment, loses its name, whatever text follows |
| Purl.ParsePurl | web/packamal/package_analysis/utils.py:24-94 | errors and result on every string |
| Purl.ParseQualifiers | web/packamal/package_analysis/utils.py:98-106 | the loop over pairs refines the fold |
| PercentEncoding.UnquoteOfEscape | web/packamal/package_analysis/utils.py:66-79 | unquoting undoes percent-encoding of UTF-8 by section 2.1 of RFC 3986, for every text |
| PercentEncoding.DecodeOfUtf8 | web/packamal/package_analysis/utils.py:66-79 | decoding undoes UTF-8 encoding |
| PercentEncoding.DecodesFirst | web/packamal/package_analysis/utils.py:66-79 | decoding takes exactly the characters that bytes start with, and the replacement character for bytes that start with none, overlong forms and surrogates included |
| PercentEncoding.ReplacesLongest | web/packamal/package_analysis/utils.py:66-79 | one replacement character stands for the longest beginning of a character, or for one byte |
| PercentEncoding.EscapeIsByte | web/packamal/package_analysis/utils.py:66-79 | an escape stands for its byte in either case of the digits |
| PercentEncoding.UnquoteKeepsText | web/packamal/package_analysis/utils.py:66-79 | ASCII text with percent signs but no escapes stays as it is |
| Strace.SocketKeyIsInjective | dynamic-analysis/internal/strace/strace.go:179-189 | different sockets have different keys |
| Strace.KeysFollowPortsIff | dynamic-analysis/internal/strace/strace.go:180-182 | keys of one address follow the ports below a limit if and only if the limit is at most 100000 |
| Strace.SocketListingOrder | dynamic-analysis/internal/strace/strace.go:398-411 | no socket is listed twice, and ports of one address below 100000 are in numeric order |
| Strace.OrderDoesNotMatter | dynamic-analysis/internal/strace/strace.go:382-395 | the files listed and their flags do not depend on the order or repetition of the calls |
| Strace.AllCommandsListedIff | dynamic-analysis/internal/strace/strace.go:414-427 | every executed command is listed if and only if no two different ones have one key |
| Strace.CommandKeysClash | dynamic-analysis/internal/strace/strace.go:191-199 | two different commands with one key |
| Strace.CommandKeyIsInjective | dynamic-analysis/internal/strace/strace.go:191-199 | commands without spaces, empty texts or closing brackets are told apart |
| Strace.Result.Commands | dynamic-analysis/internal/strace/strace.go:414-427 | one command for each executed key, in key order |
| Strace.Result.Files | dynamic-analysis/internal/strace/strace.go:382-395 | each touched path once, ascending, flags the OR over all calls |
| Strace.ListedFlagsIff | dynamic-analysis/internal/strace/strace.go:68-87 | a listed file is read, written or deleted exactly when some stat or open, some write, creation or open, or some unlink says so, by the open flags |
| Strace.ListedPathsIff | dynamic-analysis/internal/strace/strace.go:204-328 | the paths listed are exactly those of the five kinds of calls on files |
| Strace.ListedSocketsIff | dynamic-analysis/internal/strace/strace.go:275-292 | the sockets listed are exactly those of IPv4 and IPv6 calls with a port |
| Strace.Result.Sockets | dynamic-analysis/internal/strace/strace.go:398-411 | exactly the recorded sockets, in key order |
| Strace.Result.Parse | dynamic-analysis/internal/strace/strace.go:332-379 | the event loop fails exactly at a new buffer that cannot be stored, and else keeps what was recorded in step with the calls read |
| Strace.Result.RecordFileAccess | dynamic-analysis/internal/strace/strace.go:150-157 | the flags of one path are or-ed |
| Strace.Result.RecordFileWrite | dynamic-analysis/internal/strace/strace.go:159-177 | a write is recorded with its buffer when contents are kept, and fails exactly when a new buffer cannot be stored |
| Strace.Result.RecordSocket | dynamic-analysis/internal/strace/strace.go:179-189 | a socket is recorded once |

## Left out

- Django views, templates, the ORM, Redis and Celery transport, containers and their logs: input and output.
- Running the queue manager and Celery together: no claim rests on that combination.
- Containers that outlive the worker process that started them, and who removes them.
- Container ids, error messages, log lines and error details; 64-bit wrap-around of counters and sizes.
- `get_remaining_time_minutes` (models.py) and `validate_purl_format` (utils.py): one-line reads, the latter being the acceptance that `Purl.EcosystemsAgree` states.
- Database failures, two manager processes, clock readings that repeat.
- LeaseExtender: the goroutine and its channels are a state machine on values, not a class; a second call of Stop, which returns nothing, is not modelled.
- DecisionEngine.Matched: case folding is ASCII only, and regular expressions are a parameter.
- NetworkController.Controller.HandleRequest: response bodies, headers and metadata, the rewritten headers (which are shared with the request), logging and the time of the last request.
- ControllerGuarantees.OutcomesEqualTotalIff: the dispatch of a request is one step, so a mode switch between the controller's and the router's reading of the mode appears as a setup whose two copies differ, not as a step of its own.
- TransparentMode.TransparentModeHandler.TrackConnection: connections are values in the table, not shared pointers; payload contents, JSON logs and the connection duration are not modelled.
- HttpInterceptor: packet decoding and the DNS layer, which only feed the payload.
- LogWriter.Writer: the context, the level and errors of the buffer, which never fails.
- LineLengths.GetLineLengths: reading from a file and read errors.
- ValueCounts: JSON encoding.
- Purl: a subpath after `#`, which the parser does not know, and lone surrogates in Python strings.
- Strace: matching lines by regular expressions, joining paths and decoding commands.
- Strace.Result.Parse: the text of the sequence of system calls, which is appended as it is read.
- QueueManager.QueueManager.ProcessTask: writes of others in between, which `QueueProtocol` interleaves.
- Feature flags, ecosystem tables, generators, honeypots, PII stripping and simulated bodies: only easy members.
