# Verified model of the finance answer service's control layer

A Dafny 4.11 model of the concurrent and protocol-bearing parts of the service and its release and evaluation
tools, with proofs of the properties they exist for.  `dafny verify dfyconfig.toml` checks everything.

## What is modelled

- **Request execution and transport audit.**  `RequestModel.dfy` is a transition system with one action per
  critical section: the process-wide admission counter, the single-flight registry with its bounded TTL replay
  cache, futures with their done-callbacks, the per-attempt worker barrier, the pending-terminal counter and the
  audit log.  Callbacks of a done future may run in any order and at any later time, because a callback added to
  a finished future runs in the adding thread.  `RequestInvariants.dfy`, `RegistryInvariants.dfy` and
  `LogInvariants.dfy` hold the inductive invariant; `RequestTheorems.dfy` the guarantees over whole runs;
  `RequestClasses.dfy` the mutable classes, related to the actions by their contracts and two refinement lemmas.
  `HttpAudit.dfy` is the middleware that decides which terminal an attempt asks for.
- **Release activation.**  `ReleaseActivation.dfy` lets any number of activators contend for the lock, fail at
  every external step, crash, and have their environment files edited at any time.  Compose is a child process
  that does not inherit the lock, so a killed activator leaves an orphan that acts later without it.
  `ComposeArguments.dfy` proves the argument scanner against a grammar.
- **Single-use logs.**  `ReceiptChain.dfy` (digests are a free constructor, so equal digests mean equal bodies),
  `SingleUse.dfy` (sealers and runners of the sealed suite) and `Remediation.dfy`.
- **Measurement.**  `Percentile.dfy`, `PhaseSlices.dfy`, `Benchmark.dfy` (the producer), `BenchmarkReport.dfy`
  (the analyzer's fingerprints and comparison contract, and producer-analyzer agreement) and `AuditBinding.dfy`.
- **Shutdown and readiness.**  `RuntimeStatus.dfy` (the two degraded latches, with status calls split into their
  locked check and their snapshot) and `Shutdown.dfy` (stage order, time budget, nested request timeouts).
- **Small languages.**  `Sealing.dfy` with `BigEndianCounters.dfy`, and `EnvironmentFile.dfy`, whose one loader
  takes the differences of the three loaders as a parameter.

Beside each machine stand lemmas that spell its decisions out in ages, counts, fields and characters (for instance
`RequestTheorems.FreshIsReplayed`, `RuntimeStatus.SinkFaults` or `Shutdown.RemainingTimeout`), and converses that
show every accepted behaviour to happen in some run.

Shared helpers are in `Counting.dfy`, `Sorting.dfy` and `Partitioning.dfy`.

Where the code falls short of what one might expect, the code is kept and the condition that decides is proved:

- A look-up between a worker's end and its completion callback may replay a value its policy refuses; a hit is
  settled exactly when that callback has run, and the value of a settled hit was accepted.
- An event may follow an attempt's terminal; one still can exactly as long as the handler has not left or a
  worker it started is not done.
- Recorded and served release may differ at a normal return; without orphans they agree exactly when the
  environment file named the same release at both readings.
- A failed state write leaves a new record behind exactly when it failed after replacing another release.
- A warm benchmark phase with a control code passes the producer, and only that keeps a passed phase from the analyzer.
- A sealed record opens exactly when its id is a string.
- A snapshot's binding path is read back exactly when it is safe, stripped and free of every line separator.

## Model

| member | source | states |
|---|---|---|
| RequestTheorems.SingleFlight | fastapi_backend/app/request_execution.py:290-384 | In every reachable state a key has at most one unfinished future, and that future is the one in the registry. |
| RequestTheorems.RunningEntrySurvives | fastapi_backend/app/request_execution.py:290-431 | No step of anybody (prune, completion, timeout, disconnect, another look-up) drops or replaces the entry of an unfinished future. |
| RequestTheorems.CompletionFindsItsEntry | fastapi_backend/app/request_execution.py:321-328 | The identity guard of a completion never fires: the entry is still registered and unsettled when its completion callback runs. |
| RequestTheorems.AdmissionConserved | fastapi_backend/app/request_execution.py:66-108 | In every reachable state active equals unreleased submissions plus admissions in flight, accepted counts every admission ever made, active is at most 8, and idle is set exactly when active is zero. |
| RequestTheorems.AdmittedBelowLimit | fastapi_backend/app/request_execution.py:66-76 | In every run a bounded start, or a look-up that misses, gets a slot exactly when unreleased submissions plus admissions in flight are fewer than the caller's limit; otherwise only the rejected count grows, by one. |
| RequestTheorems.NoUnderflow | fastapi_backend/app/request_execution.py:78-84 | Neither the admission counter nor the pending-terminal counter is ever released below zero in any run. |
| RequestTheorems.ReleasedOnce | fastapi_backend/app/request_execution.py:382-382 | A submission gives its admission slot back at most once in a run. |
| RequestTheorems.ReleasedByAStep | fastapi_backend/app/request_execution.py:461-462 | A slot that is back was released by its own callback, after its future was done. |
| RequestTheorems.PeakIsMaximum | fastapi_backend/app/request_execution.py:66-76 | The recorded peak is the maximum of the active count over the whole run. |
| RequestTheorems.ReplayRefinesLog | fastapi_backend/app/request_execution.py:345-359 | A hit on a settled entry is the last logged completion and the last submission of its key: a returned value that its cache policy accepted, younger than the TTL at the caller's clock; it is replayed for the same input and refused for another. |
| RequestTheorems.HitIsLatest | fastapi_backend/app/request_execution.py:345-359 | Every hit, settled or not, hands out the latest submission of the key, made for the same input, and is called replayed exactly when that future is done; its entry is settled exactly when the completion callback has run, and then its value was accepted by the cache policy. |
| RequestTheorems.UnsettledReplayIsUnchecked | fastapi_backend/app/request_execution.py:353-357 | Counterexample run: between a worker's end and its completion callback a look-up replays a value that the cache policy refuses, because the disposition follows the future and not the completion time. |
| RequestTheorems.UnevictedIsFound | fastapi_backend/app/request_execution.py:290-328 | An accepted completion that is not in the eviction history is exactly what a later look-up of its key finds. |
| RequestTheorems.AcceptedIsFound | fastapi_backend/app/request_execution.py:290-328 | An accepted completion that no prune put at risk is exactly what a later look-up of its key finds; what being at risk means in ages and counts is RegistryInvariants.PruneMayDrop. |
| RequestTheorems.SparedIsReplayed | fastapi_backend/app/request_execution.py:290-359 | If every prune up to a look-up met an accepted completion at an age below the TTL and with too many earlier completions registered to reach it, or no overflow at all, the look-up replays it to the same input and refuses another input, without any new submission or slot. |
| RequestTheorems.FreshIsReplayed | fastapi_backend/app/request_execution.py:290-359 | In plain terms: if every prune up to a look-up met the completion younger than the TTL and the registry never held more entries than its maximum, the same input is tracked on that very future as replayed and nothing is started. |
| RequestTheorems.AgedIsNotFound | fastapi_backend/app/request_execution.py:291-299 | A look-up whose clock is a TTL or more past an entry's completion does not find it. |
| RequestTheorems.RunningIsJoined | fastapi_backend/app/request_execution.py:345-359 | In every run a look-up of a key with an unfinished future joins that future when the input is the same and is refused otherwise; no submission and no slot comes of it. |
| RequestTheorems.EvictedByAPrune | fastapi_backend/app/request_execution.py:290-312 | Whatever was evicted was at risk in some earlier prune of the run, which held its entry with its completion time. |
| RequestTheorems.ConflictTouchesNothing | fastapi_backend/app/request_execution.py:348-352 | Reusing a live key for another input starts no work, reads no result, takes no slot and leaves a running entry in place. |
| RequestTheorems.EvictionIsOldestFirst | fastapi_backend/app/request_execution.py:290-312 | In every reachable state the settled entries fit the bound, and whatever was ever evicted completed no later than every settled survivor. |
| RequestTheorems.AuditProtocol | fastapi_backend/app/http_audit.py:136-268 | Every audited attempt logs its start first and once and its terminal at most once; the terminal comes after every tracked worker is done, and is the last event of the attempt if the handler did not act after asking for it. |
| RequestTheorems.LateHandlerFollowsTerminal | fastapi_backend/app/http_audit.py:183-191 | Counterexample run: a handler that goes on emitting after its terminal was requested puts an event behind the terminal. |
| RequestTheorems.TerminalIsFinal | fastapi_backend/app/request_execution.py:153-223 | Exactly when a terminal that is out stays the last event: some continuation logs a further event of the attempt if and only if its handler has not left or a worker it started is not done. |
| RequestTheorems.TimelyTerminalIsFinal | fastapi_backend/app/http_audit.py:136-268 | If the handler left and never acted after its request, no continuation logs anything behind the terminal. |
| RequestTheorems.DispatchShrinks | fastapi_backend/app/request_execution.py:202-223 | Every settle, emit, unregister or release step of an attempt leaves it strictly less dispatch work. |
| RequestTheorems.DispatchNotStuck | fastapi_backend/app/request_execution.py:187-223 | An attempt whose handler left and whose workers are done always has an enabled dispatch step until it is finished. |
| RequestTheorems.TerminalIsEmitted | fastapi_backend/app/request_execution.py:187-223 | Under every schedule: once the handler left and the tracked workers are done, the terminal is in the log and the drain given back exactly when no dispatch step is left to take, and the steps taken never exceed the work there was. |
| RequestTheorems.DispatchIsBounded | fastapi_backend/app/request_execution.py:187-223 | Over any stretch of any run after the handler left, dispatch steps taken plus work left never exceed the work at its start; nobody else touches the attempt. |
| RequestTheorems.OthersKeepAttempt | fastapi_backend/app/request_execution.py:153-223 | No step but its own dispatch steps changes an attempt whose handler has left. |
| RequestTheorems.TerminalComes | fastapi_backend/app/request_execution.py:187-223 | One such schedule: callbacks already owed emit the terminal and give the drain back within the work bound. |
| RequestTheorems.IdleMeansReleased | fastapi_backend/app/request_execution.py:95-108 | If the admission counter reads zero, every accepted worker is done and has released. |
| RequestTheorems.NoTerminalsPending | fastapi_backend/app/request_execution.py:141-147 | If the pending-terminal counter reads zero, every attempt that tracked a worker has emitted its terminal and given its drain back. |
| RequestTheorems.DrainedIsSilent | fastapi_backend/app/request_execution.py:440-446 | If both waits of the drain see zero and no new traffic arrives, all workers are released, all their terminals are out, and nothing but terminals of attempts without workers is logged afterwards. |
| RequestTheorems.SettledIsLast | fastapi_backend/app/request_execution.py:314-328 | A settled registry entry is the last completion and the last submission of its key. |
| RequestTheorems.PaidStaysPaid | fastapi_backend/app/request_execution.py:382-383 | Owner and job of a submission never change, a done future stays done, and a callback that ran stays run. |
| RequestTheorems.FutureLifecycle | fastapi_backend/app/request_execution.py:360-428 | Only its own start, end or cancellation while queued changes a future's status, and each to what it says. |
| LogInvariants.RunInv | fastapi_backend/app/request_execution.py:56-431 | Every state of every run satisfies the whole invariant (futures, admission, lock, registry and completion log, bound, barriers, workers, terminals, audit log). |
| LogInvariants.InvStep | fastapi_backend/app/request_execution.py:56-431 | Every enabled step, in any interleaving, keeps the whole invariant. |
| LogInvariants.WorkerCannotFollowTerminal | fastapi_backend/app/request_execution.py:153-223 | A worker still running when its attempt's terminal is out belongs to an attempt whose handler acted after requesting the terminal. |
| LogInvariants.LogStep | fastapi_backend/app/http_audit.py:136-268 | Every step keeps the order of start, worker, handler and terminal events of every attempt. |
| RequestInvariants.AdmissionStep | fastapi_backend/app/request_execution.py:56-108 | Every step keeps the admission counter equal to the unreleased work. |
| RequestInvariants.BarriersStep | fastapi_backend/app/request_execution.py:153-223 | Every step keeps each barrier consistent with its dispatch, its tracked workers and its drain flag. |
| RequestInvariants.WorkersStep | fastapi_backend/app/request_execution.py:247-250 | Every step keeps each unfinished worker tracked by the attempt that owns it, unless that attempt is late. |
| RequestInvariants.TerminalsStep | fastapi_backend/app/request_execution.py:118-148 | The pending-terminal counter equals the barriers with a registered drain plus the releases in flight after every step. |
| RequestInvariants.LockStep | fastapi_backend/app/request_execution.py:345-380 | The registry's critical section is held exactly by the request between its admission and its submission, and the key it submits is not registered meanwhile. |
| RegistryInvariants.CacheStep | fastapi_backend/app/request_execution.py:290-384 | Every step keeps the registry equal to the accepted part of the completion log minus the evicted entries. |
| RegistryInvariants.PruneBound | fastapi_backend/app/request_execution.py:290-312 | After a prune the settled entries fit the maximum. |
| RegistryInvariants.PruneDropsOldest | fastapi_backend/app/request_execution.py:301-312 | Whatever a prune drops completed no later than every settled entry it keeps. |
| RegistryInvariants.PruneMayDrop | fastapi_backend/app/request_execution.py:290-312 | A settled entry is dropped by some outcome of a prune exactly when it is a TTL or more old, or when fewer unexpired entries completed before it than the overflow; said once over ages and counts and once over the outcomes. |
| RegistryInvariants.PruneByAge | fastapi_backend/app/request_execution.py:290-312 | A prune leaves only keys that are unsettled or younger than the TTL, all of them while they fit the maximum, exactly the maximum otherwise or only unsettled ones, and every unsettled one. |
| RegistryInvariants.PruneExists | fastapi_backend/app/request_execution.py:290-312 | Every prune of every registry has an outcome. |
| RegistryInvariants.CacheComplete | fastapi_backend/app/request_execution.py:314-328 | A completion settles, caches or drops its entry and logs it without breaking the registry. |
| RegistryInvariants.CacheLookUp | fastapi_backend/app/request_execution.py:345-359 | A look-up's prune keeps the registry and the eviction order. |
| RegistryInvariants.CacheSubmit | fastapi_backend/app/request_execution.py:360-380 | A submission registers the new latest execution of its key. |
| RequestClasses.ProcessAdmission.TryAcquire | fastapi_backend/app/request_execution.py:66-76 | Admits exactly when the active count is below the limit; then one more is active and accepted, the peak follows and idle is clear, and otherwise only the rejected count grows. |
| RequestClasses.ProcessAdmission.ReleaseSlot | fastapi_backend/app/request_execution.py:78-84 | Gives one slot back and sets idle exactly when none is left, or reports underflow and changes nothing. |
| RequestClasses.PendingAuditTerminals.AcquireOne | fastapi_backend/app/request_execution.py:127-131 | Registers one drain and clears idle at the first. |
| RequestClasses.PendingAuditTerminals.ReleaseOne | fastapi_backend/app/request_execution.py:133-139 | Releases one drain and sets idle at zero, or reports underflow and changes nothing. |
| RequestClasses.RequestAuditWorkerBarrier.Track | fastapi_backend/app/request_execution.py:171-185 | Tracks a future once, registers the drain with the first, and refuses after the terminal was requested. |
| RequestClasses.RequestAuditWorkerBarrier.DeferTerminalCallback | fastapi_backend/app/request_execution.py:187-200 | Runs the callback now when nothing is pending, keeps it when something is, ignores a second request. |
| RequestClasses.RequestAuditWorkerBarrier.WorkerSettled | fastapi_backend/app/request_execution.py:202-211 | Drops the settled worker and runs the kept callback exactly when it was the last one. |
| RequestClasses.RequestAuditWorkerBarrier.DispatchTerminal | fastapi_backend/app/request_execution.py:213-223 | Runs the callback once and gives a registered drain back once. |
| RequestClasses.IdempotentRequestCoordinator.SortedByCompletion | fastapi_backend/app/request_execution.py:301-309 | Lists every settled key once, oldest completion first. |
| RequestClasses.IdempotentRequestCoordinator.DropExpired | fastapi_backend/app/request_execution.py:291-299 | The deletion loop leaves exactly the entries that are unsettled or whose age is below the TTL, unchanged. |
| RequestClasses.IdempotentRequestCoordinator.Prune | fastapi_backend/app/request_execution.py:290-312 | The two deletion loops leave only unsettled entries and entries younger than the TTL: all of them while they fit the maximum, and above it only the oldest settled ones dropped until it fits or none is left. |
| RequestClasses.IdempotentRequestCoordinator.Complete | fastapi_backend/app/request_execution.py:314-328 | Stamps and prunes an accepted completion, deletes a refused one, and ignores a foreign entry. |
| RequestClasses.IdempotentRequestCoordinator.EntryFor | fastapi_backend/app/request_execution.py:330-384 | The whole look-up and submission, with each outcome under its own condition: limit check, prune, conflict, replay or join, overload, refused submission with the slot given back, or a new entry. |
| RequestClasses.EntryForRefines | fastapi_backend/app/request_execution.py:330-384 | The coordinator's look-up and submission leave the registry, the counter and the result of the system's look-up step and the submission step that follows a miss. |
| RequestClasses.CompleteRefines | fastapi_backend/app/request_execution.py:314-328 | The coordinator's completion leaves the registry of the system's completion step. |
| RequestClasses.DroppedIsOutcome | fastapi_backend/app/request_execution.py:301-312 | Dropping the first entries in completion order is a prune outcome. |
| HttpAudit.AnswerHttpAudit.Request | fastapi_backend/app/http_audit.py:183-191 | Only the first terminal request of an attempt counts. |
| HttpAudit.AnswerHttpAudit.AuditedSend | fastapi_backend/app/http_audit.py:193-248 | One send updates the status and requests a terminal exactly as the attempt's step function says; a refusal is raised again. |
| HttpAudit.AnswerHttpAudit.Leave | fastapi_backend/app/http_audit.py:250-268 | Leaving the handler aborts an attempt that has no terminal yet. |
| HttpAudit.StatusIsTracked | fastapi_backend/app/http_audit.py:208-210 | The status the middleware remembers is that of the last response start the server took. |
| HttpAudit.FirstDecisionWins | fastapi_backend/app/http_audit.py:183-248 | Over any sends the terminal is settled by the first refusal or first final body frame and by nothing later: a refusal aborts, a frame yields the route's mark or the class of the last status. |
| HttpAudit.UndecidedIsAborted | fastapi_backend/app/http_audit.py:250-268 | An attempt in which nothing was decided ends aborted. |
| HttpAudit.UnmarkedSuccessWasDelivered | fastapi_backend/app/http_audit.py:230-248 | An unmarked success means that the final frame was taken and so was a 2xx or 3xx start before it. |
| HttpAudit.TerminalIsDecided | fastapi_backend/app/http_audit.py:183-268 | The terminal of a whole attempt from its sends: a refusal aborts; a final frame yields the route's mark, else success for a last start in 200-399, a block for 400-499 and a failure for anything else. |
| ReleaseActivation.RunInv | fastapi_backend/scripts/release_activation.py:535-564 | In every run each replacement of the state was validated against exactly the record it replaced, and only the lock holder is past the lock. |
| ReleaseActivation.RecordedStatesFormAChain | fastapi_backend/scripts/release_activation.py:305-350 | For any number of contending activators and any failures the recorded states, repetitions removed, are generations 1, 2, 3, ..., the first with a bootstrap rollback and each other one repeating the seven fields of its predecessor. |
| ReleaseActivation.EverySuccessionIsRecorded | fastapi_backend/scripts/release_activation.py:305-350 | Conversely every such succession of releases, of any length, is recorded by some run, which ends with the last one recorded and served. |
| ReleaseActivation.RestartIsIdempotent | fastapi_backend/scripts/release_activation.py:330-335 | After any succession, activating the recorded release again, whatever its rollback says, returns idempotent, serves it and records nothing new. |
| ReleaseActivation.DecisionIsExact | fastapi_backend/scripts/release_activation.py:305-350 | Which candidate is bootstrapped, idempotent or advanced against which record, field by field and as equivalences; every other candidate fails. |
| ReleaseActivation.SupersededNeverReturns | fastapi_backend/scripts/release_activation.py:305-350 | A superseded record is never recorded again. |
| ReleaseActivation.GenerationsGrow | fastapi_backend/scripts/release_activation.py:330-350 | Recorded generations never decrease, and one generation has one record. |
| ReleaseActivation.NormalReturnServesRecorded | fastapi_backend/scripts/release_activation.py:535-564 | A normal return follows a trust verification that passed; the candidate recorded is what the file named when it was loaded; what is served was decided by the last step that touched the stack, the activator's own Compose or an orphan after it, and without orphans in between the two agree exactly when the file named the same release at both readings. |
| ReleaseActivation.OrphansComeFromKills | fastapi_backend/scripts/release_activation.py:543-547 | Orphans exist only if an activator was killed while its Compose child ran. |
| ReleaseActivation.EditedRunServesAnother | fastapi_backend/scripts/release_activation.py:541-564 | Counterexample run: an edit between the two readings of the file records one release and serves another. |
| ReleaseActivation.OrphanReplacesServed | fastapi_backend/scripts/release_activation.py:535-564 | Counterexample run: the orphan of a killed activator replaces what a later one brought up before that one returns normally. |
| ReleaseActivation.OnlyTheHolderActs | fastapi_backend/scripts/release_activation.py:535-564 | The recorded state changes only in the lock holder's state write; what is served only in the holder's Compose or take-down, or when an orphan ends. |
| ReleaseActivation.FailedWriteRecords | fastapi_backend/scripts/release_activation.py:404-438 | A state write that does not return normally changes the record exactly when it failed after the replacement and the candidate was not already recorded. |
| ReleaseActivation.FailedWriteLeaves | fastapi_backend/scripts/release_activation.py:553-564 | When that activator gives the lock up, the record is new exactly in that case, and the stack is down after a successful take-down, unknown after a failed one, and untouched if the activator died instead. |
| ReleaseActivation.RecordedButDown | fastapi_backend/scripts/release_activation.py:425-438 | Counterexample run: a failure after the replacement of the state file leaves the new state recorded while Compose is taken down. |
| ComposeArguments.ScanOptions | fastapi_backend/scripts/release_activation.py:472-487 | The flag-driven loop accepts exactly what the scanner specification accepts. |
| ComposeArguments.ValidateComposeArguments | fastapi_backend/scripts/release_activation.py:441-490 | Accepts exactly the argument lists of the grammar: global options with values, one `up`, allowed flags and valued options, the three required flags in flag position; reports the count of `up` first. |
| ComposeArguments.ScannerIsGrammar | fastapi_backend/scripts/release_activation.py:441-490 | The two scans and the membership tests decide the grammar. |
| ComposeArguments.RequiredInFlagPosition | fastapi_backend/scripts/release_activation.py:488-490 | A required flag that occurs in accepted options stands in flag position, never as a value. |
| ComposeArguments.OnlyListedOptions | fastapi_backend/scripts/release_activation.py:441-490 | In accepted arguments every dashed word before `up` is one of two global options, and every one after it a listed flag, a listed valued option or an assignment to one. |
| ComposeArguments.FlagsAccepted | fastapi_backend/scripts/release_activation.py:472-490 | Any listed flags in any order and number are accepted once the three required ones are among them. |
| ComposeArguments.ValuesAccepted | fastapi_backend/scripts/release_activation.py:441-490 | A global option with its value is accepted, and beside the flags a valued up option in both forms. |
| ComposeArguments.ScansParses | fastapi_backend/scripts/release_activation.py:472-487 | Whatever the scanner accepts is the rendering of well-formed items. |
| ComposeArguments.ParsesScans | fastapi_backend/scripts/release_activation.py:472-487 | Every rendering of well-formed items is accepted by the scanner. |
| ReceiptChain.ValidateReceiptChain | finance_agent/evaluation/safety_blind_v2/integrity.py:73-94 | Accepts exactly the lines of valid chains, and names the first bad line and what is wrong with it. |
| ReceiptChain.SameHeadSameLog | finance_agent/evaluation/safety_blind_v2/integrity.py:73-94 | Two valid logs with the same head digest are identical. |
| ReceiptChain.TamperingReachesTheHead | finance_agent/evaluation/safety_blind_v2/integrity.py:73-94 | Any change to a valid log that leaves it valid changes every later digest. |
| ReceiptChain.AppendKeepsChain | finance_agent/evaluation/safety_blind_v2_remediation/remediation.py:736-816 | An append keeps the log valid and adds exactly its event. |
| ReceiptChain.ReceiptLog.AppendReceipt | finance_agent/evaluation/safety_blind_v2/integrity.py:97-148 | Succeeds exactly when the log to start from is there (none for a creation, a valid chain otherwise), its events are the expected ones and the flush succeeds; each error exactly under its own condition; the entry appended carries the event and the payload, and a failed flush is reported although it is written. |
| ReceiptChain.NextEntryCarries | finance_agent/evaluation/safety_blind_v2/integrity.py:130-138 | The new entry holds the next number, the event, the predecessor's digest or the zero digest, the payload, and the digest of all that. |
| SingleUse.RunInv | finance_agent/evaluation/safety_blind_v2/seal.py:93-254 | In every run of any number of initializers, sealers and runners the chronology, the artifacts and the owners of each phase stay consistent. |
| SingleUse.ChronologyIsSingleUse | finance_agent/evaluation/safety_blind_v2/runner.py:270-400 | Every chronology is a valid chain spelling a prefix of authoring, sealed, run started, then completed or failed; cases are executed at most once. Which ending it is follows from what the process did: see the next rows. |
| SingleUse.EntryWrittenBy | finance_agent/evaluation/safety_blind_v2/runner.py:270-400 | Each entry of a chronology was written by one step of the run, at its place, and carries that step's event and payload. |
| SingleUse.CompletionWasExecuted | finance_agent/evaluation/safety_blind_v2/runner.py:270-400 | A completion in the chronology was written as fourth entry by the completing step of the one process that was executing the cases. |
| SingleUse.FailureWasRaised | finance_agent/evaluation/safety_blind_v2/runner.py:388-400 | A failure in the chronology was written by the failure handler of the executing process after it had raised. |
| SingleUse.RaisedNeverCompletes | finance_agent/evaluation/safety_blind_v2/runner.py:388-400 | If the executing process ever raised, no state of the run has a completion in its chronology, before or after. |
| SingleUse.EveryWordIsReached | finance_agent/evaluation/safety_blind_v2/runner.py:270-400 | Each of the five chronologies is the chronology of some run. |
| SingleUse.HistoryIsKept | finance_agent/evaluation/safety_blind_v2/runner.py:270-400 | What was ever in the chronology stays in it as a prefix. |
| SingleUse.SealAppendsAfterAuthoring | finance_agent/evaluation/safety_blind_v2/seal.py:116-254 | The seal receipt, appended without expected events, always finds exactly the authoring event, because the first artifact is created exclusively. |
| Remediation.RemediationIsSingleUse | finance_agent/evaluation/safety_blind_v2_remediation/remediation.py:764-816 | After any attempts the remediation log is a valid chain spelling prepared, started, then completed and perhaps verified, or failed, each entry written by one attempt. |
| Remediation.EachTransitionOnce | finance_agent/evaluation/safety_blind_v2_remediation/remediation.py:764-816 | No transition of the remediation run ever succeeds twice. |
| Remediation.AttemptDecides | finance_agent/evaluation/safety_blind_v2_remediation/remediation.py:736-816 | After any attempts a further one appends its own event with its own payload exactly when it is not interrupted and finds exactly the events it must find; otherwise nothing changes. |
| Remediation.EndingTells | finance_agent/evaluation/safety_blind_v2_remediation/remediation.py:764-816 | The log says completed, failed or verified exactly when a completing, failing or verifying attempt succeeded. |
| Remediation.EveryWordIsReached | finance_agent/evaluation/safety_blind_v2_remediation/remediation.py:764-816 | Each order of transitions that the language allows is achieved by some attempts. |
| Percentile.InterpolatesLinearly | fastapi_backend/scripts/deterministic_performance_analysis.py:167-179 | Between neighbouring order statistics the percentile is their weighted mean, joints included. |
| Percentile.PercentileReads | fastapi_backend/scripts/deterministic_performance_analysis.py:167-179 | The quantile (i + f) / (n - 1) of any n samples is (1 - f) of the sorted sample i and f of the sorted sample i + 1, rounded. |
| Percentile.PercentileIgnoresOrder | fastapi_backend/scripts/deterministic_performance_analysis.py:167-179 | The percentile depends only on the multiset of the samples. |
| Percentile.PercentileMonotone | fastapi_backend/scripts/deterministic_performance_analysis.py:167-179 | The percentile is monotone in the quantile for every monotone rounding. |
| Percentile.PercentileEnds | fastapi_backend/scripts/deterministic_api_benchmark.py:426-438 | The percentile at 0 is the rounded minimum and at 1 the rounded maximum. |
| Percentile.SummaryIsOrdered | fastapi_backend/scripts/deterministic_performance_analysis.py:182-201 | Every summary satisfies min <= p50 <= p95 <= p99 <= max and min <= mean <= max for every monotone rounding. |
| Percentile.SummaryReads | fastapi_backend/scripts/deterministic_performance_analysis.py:182-201 | Of 100 n + 1 samples p50, p95 and p99 are the rounded sorted samples 50 n, 95 n and 99 n, and the mean is the rounded sum over the count. |
| PhaseSlices.ScanGroup | fastapi_backend/scripts/deterministic_performance_analysis.py:752-758 | The neighbour comparison over the sorted group decides whether any two of its slices overlap. |
| PhaseSlices.GroupByRequest | fastapi_backend/scripts/deterministic_performance_analysis.py:731-750 | The grouping loop accepts exactly valid, uniquely named slices, groups them by request, and names the fault at the first bad slice. |
| PhaseSlices.ValidatePhaseSlices | fastapi_backend/scripts/deterministic_performance_analysis.py:727-759 | Accepts exactly nonempty lists of valid, uniquely named slices that are pairwise disjoint within each request; says which check failed. |
| PhaseSlices.NeighboursDecide | fastapi_backend/scripts/deterministic_performance_analysis.py:752-758 | Sorted by start, neighbours that do not overlap mean that no two slices overlap. |
| PhaseSlices.NoInvocationTwice | fastapi_backend/scripts/deterministic_performance_analysis.py:258-273 | Accepted slices never select one invocation twice. |
| PhaseSlices.FinalEventIs | fastapi_backend/scripts/deterministic_performance_analysis.py:228-241 | The event that names an invocation's request is its last request event, failing that its last answer event, failing that its last event. |
| PhaseSlices.MatchingInOrder | fastapi_backend/scripts/deterministic_performance_analysis.py:254-267 | The invocations a slice counts over are those of its request, each as often as it occurs, in the order of their earliest events. |
| PhaseSlices.TilesSelectPrefix | fastapi_backend/scripts/deterministic_performance_analysis.py:258-273 | Slices that tile select together exactly a gap-free prefix of the request's invocations, or report that there are too few. |
| PhaseSlices.LegacyPhaseSlices | fastapi_backend/scripts/deterministic_performance_analysis.py:796-812 | Accepts exactly nonempty NAME=COUNT lists with distinct names for a valid request hash; the slices tile a prefix, so the overlap check never fires. |
| Partitioning.PartitionUnique | fastapi_backend/scripts/deterministic_performance_analysis.py:804-806 | Splitting at the first equals sign undoes joining a name without one to a value. |
| Benchmark.SelectOutcome | fastapi_backend/scripts/deterministic_api_benchmark.py:582-593 | One outcome holds the number of results with its key, the set of their digests, and whether they agree without transport errors. |
| Benchmark.CollectOutcomes | fastapi_backend/scripts/deterministic_api_benchmark.py:581-593 | The outcome loop yields one outcome for every key that occurs and for no other. |
| Benchmark.Summarize | fastapi_backend/scripts/deterministic_api_benchmark.py:561-626 | The summary's counts, counters, outcomes and verdict are those of the results. |
| Benchmark.SummarySpelled | fastapi_backend/scripts/deterministic_api_benchmark.py:561-626 | All requests pass exactly when no result has a transport error or a violation of either kind, passed and failed add up, and a label is counted exactly when some result carries it. |
| Benchmark.OutcomesSeparate | fastapi_backend/scripts/deterministic_api_benchmark.py:553-558 | Two results share an outcome key exactly when they have the same transport error, failing that the same accepted control code, failing that the same status label; no key of one sort equals one of another. |
| Benchmark.OutcomesPartition | fastapi_backend/scripts/deterministic_api_benchmark.py:581-596 | The outcome counts add up to the number of requests: each request is counted under exactly one outcome. |
| Benchmark.ActualIsLeastMultiple | fastapi_backend/scripts/deterministic_api_benchmark.py:958-959 | The number of requests sent is the least multiple of the concurrency at or above the requested count. |
| Benchmark.RunPhase | fastapi_backend/scripts/deterministic_api_benchmark.py:958-1001 | The waves send exactly that many requests and summarize their results in submission order. |
| BenchmarkReport.FingerprintPhase | fastapi_backend/scripts/deterministic_performance_analysis.py:479-513 | Prints a phase exactly when every outcome is deterministic with one valid digest, the counts add up and no key collides; the map gains exactly the phase's keys. |
| BenchmarkReport.FingerprintCases | fastapi_backend/scripts/deterministic_performance_analysis.py:446-466 | Prints the smoke cases exactly when all passed with valid digests and distinct names. |
| BenchmarkReport.CasesSpelled | fastapi_backend/scripts/deterministic_performance_analysis.py:446-466 | Printable cases are exactly those that all passed, under pairwise distinct nonempty ids, with a digest each. |
| BenchmarkReport.BenchmarkFingerprints | fastapi_backend/scripts/deterministic_performance_analysis.py:443-514 | A report is fingerprinted exactly when all cases and phases are printable without collisions. |
| BenchmarkReport.ComparisonContract | fastapi_backend/scripts/deterministic_performance_analysis.py:517-611 | The contract is produced exactly for comparable reports: four phases in contract order, each passed, complete and deterministic. |
| BenchmarkReport.ComparableSpelled | fastapi_backend/scripts/deterministic_performance_analysis.py:517-611 | Comparable, spelled out as an equivalence: the header fields, printable cases, and four clean phases with the names, kinds, concurrencies, controls and least-multiple counts of the contract. |
| BenchmarkReport.ProducedPhasePrintable | fastapi_backend/scripts/deterministic_performance_analysis.py:479-513 | A phase the benchmark produced, with hashed exchanges, passes the analyzer's fingerprint check exactly when its summary is deterministic. |
| BenchmarkReport.ProducedPhaseMatches | fastapi_backend/scripts/deterministic_performance_analysis.py:566-600 | The analyzer's phase check agrees with the producer's own verdict, except that a warm phase must show no control code at all. |
| BenchmarkReport.ProducerMeetsAnalyzer | fastapi_backend/scripts/deterministic_api_benchmark.py:1057-1063 | A produced report is comparable exactly when its fixed fields and cases are in order, every phase passed and no warm phase saw a control code. |
| AuditBinding.Tabulate | fastapi_backend/scripts/deterministic_performance_analysis.py:666-672 | The offset loop records for each phase the invocations that precede it. |
| AuditBinding.BindAudit | fastapi_backend/scripts/deterministic_performance_analysis.py:651-717 | A binding passes exactly when the report is comparable and the selected phases are its first three or all four, each with the reported count, offset, request and question. |
| AuditBinding.BoundSpelled | fastapi_backend/scripts/deterministic_performance_analysis.py:651-717 | Bound, spelled out as an equivalence over the report: at least three slices, each with the name and count of the report's phase, the offset of its predecessor plus that phase's count, and only invocations of the reported request and question. |
| AuditBinding.OrderedNamesArePrefix | fastapi_backend/scripts/deterministic_performance_analysis.py:673-683 | Containing the warm phases and following contract order means being a prefix of the contract. |
| AuditBinding.PassingBindingIsGapFree | fastapi_backend/scripts/deterministic_performance_analysis.py:651-717 | A passing binding means that the selected phases tile the request's invocations from the first one on, without a gap. |
| RuntimeStatus.AuditRuntimeState.Start | fastapi_backend/app/audit_runtime.py:37-48 | A failed start latches degraded and is raised again; a disabled runtime ignores it. |
| RuntimeStatus.AuditRuntimeState.Close | fastapi_backend/app/audit_runtime.py:50-71 | The reported drain is the upstream drain and the sink's; a missed drain latches degraded. |
| RuntimeStatus.AuditRuntimeState.Status | fastapi_backend/app/audit_runtime.py:73-110 | The reply and the latch follow the check and the snapshot. |
| RuntimeStatus.ShadowRuntimeState.Close | fastapi_backend/app/shadow_runtime.py:37-59 | Refuses a negative timeout; otherwise the drain is the upstream drain and the observer's, and a missed drain latches degraded. |
| RuntimeStatus.ShadowRuntimeState.Status | fastapi_backend/app/shadow_runtime.py:61-96 | The reply and the latch follow the check and the snapshot. |
| RuntimeStatus.StatusIsTwoSteps | fastapi_backend/app/audit_runtime.py:73-110 | A status call nobody interleaves with is its locked check followed by its conclusion. |
| RuntimeStatus.LatchIsLoss | fastapi_backend/app/audit_runtime.py:37-110 | Over any interleaved calls the latch is set exactly when some call lost coverage (failed start, missed drain, bad snapshot). |
| RuntimeStatus.PassesIffNothingLost | fastapi_backend/app/audit_runtime.py:73-84 | A status check passes exactly when the runtime was started, if it needs a start, and nothing was lost so far. |
| RuntimeStatus.HealthyAfterLossWasChecked | fastapi_backend/app/shadow_runtime.py:61-96 | After a loss only a status call that had passed its check before the loss can still report ok. |
| RuntimeStatus.DisabledStaysDisabled | fastapi_backend/app/shadow_runtime.py:61-64 | A disabled runtime never reports anything but disabled. |
| Shutdown.WaitForRequestWorkers | fastapi_backend/app/request_execution.py:440-446 | The worker stage reports both waits; when they keep their timeouts it takes no longer than the one shared timeout plus the delay between them. |
| Shutdown.ShutDown | fastapi_backend/app/main.py:124-142 | The shadow drain reported is that of both worker waits and the observer, the audit drain that and the sink's, and each runtime records and latches its share. |
| Shutdown.WithinBudget | fastapi_backend/app/main.py:124-142 | If every stage keeps the timeout it is given, the shutdown ends within the budget plus two microseconds plus the time lost between stages. |
| Shutdown.BudgetIsTight | fastapi_backend/app/main.py:124-142 | The two extra microseconds are really spent when the workers use up the budget. |
| Shutdown.RemainingTimeout | finance_agent/packages/finance_agent_core/src/finance_agent_core/deadline.py:68-79 | Refuses exactly a non-positive timeout, and exactly a deadline that passed or a cancelled request; otherwise yields the configured timeout or all that is left until the deadline, whichever ends first. |
| Shutdown.NestedWorkMeetsDeadline | finance_agent/packages/finance_agent_core/src/finance_agent_core/deadline.py:68-79 | No chain of nested operations outlives the request's deadline by more than the time spent between them. |
| Sealing.Keystream | finance_agent/evaluation/safety_blind/sealing.py:69-76 | The block loop terminates and yields exactly the first bytes of the counter stream, or fails when the eight-byte counter overflows. |
| Sealing.StreamPrefix | finance_agent/evaluation/safety_blind/sealing.py:69-76 | A shorter stream is a prefix of a longer one. |
| BigEndianCounters.CountersDiffer | finance_agent/evaluation/safety_blind/sealing.py:73-74 | Counters that fit have distinct encodings. |
| BigEndianCounters.CounterReadsBack | finance_agent/evaluation/safety_blind/sealing.py:73-74 | A counter that fits reads back from its encoding, most significant byte first. |
| BigEndianCounters.XorByteTwice | finance_agent/evaluation/safety_blind/sealing.py:79-80 | Exclusive or with the same byte twice restores the byte. |
| BigEndianCounters.XorByteDigits | finance_agent/evaluation/safety_blind/sealing.py:79-80 | Each binary digit of an exclusive or is set exactly when the two digits differ. |
| Sealing.XorTwice | finance_agent/evaluation/safety_blind/sealing.py:79-80 | Applying the same stream twice restores the text. |
| Sealing.SealThenOpen | finance_agent/evaluation/safety_blind/sealing.py:83-134 | Whatever was sealed opens to the same expectation exactly when its id is a string; otherwise the id check refuses it. |
| Sealing.CommitmentBinds | finance_agent/evaluation/safety_blind/sealing.py:108-134 | Two records with one commitment open to one expectation, or exhibit a hash collision. |
| Sealing.SealSucceeds | finance_agent/evaluation/safety_blind/sealing.py:83-105 | Sealing succeeds exactly for a readable key, a 16-byte nonce and an encodable expectation with an id that is not longer than the stream. |
| Sealing.SealedBytes | finance_agent/evaluation/safety_blind/sealing.py:69-105 | What a sealed record holds once decoded: the nonce, each plaintext byte xored with its byte of the counter stream, and the tag and the commitment over what they bind. |
| Sealing.TagBinds | finance_agent/evaluation/safety_blind/sealing.py:108-122 | Two records that open under one tag with nonces of one length hold the same nonce and ciphertext, or exhibit a hash collision. |
| Sealing.KeyForms | finance_agent/evaluation/safety_blind/sealing.py:39-60 | Between any blanks the key is the base64 text after its label, 32 raw bytes as they are, or hexadecimal, and nothing else. |
| EnvironmentFile.LoadEnvironment | fastapi_backend/scripts/rollback_drill.py:639-666 | The loading loop computes the line-by-line reading and the final key checks of each of the three loaders. |
| EnvironmentFile.WriteEnvironment | fastapi_backend/scripts/rollback_drill.py:1137-1148 | The writer emits one KEY=value line per key and refuses quotes, dollar signs and carriage returns or newlines. |
| EnvironmentFile.RoundTrip | fastapi_backend/scripts/release_trust.py:91-120 | Whatever the writer accepts reads back as itself with either loader exactly when every key is well-formed and admitted and every value is stripped and free of all line separators. |
| EnvironmentFile.SnapshotReadsBack | fastapi_backend/scripts/rollback_drill.py:1127-1148 | A loaded environment written again with a new binding path is accepted and reads back as itself, with either loader, exactly when the path is safe, stripped and on one line and the other values hold no quote or dollar sign. |
| EnvironmentFile.LoadedIsReadable | fastapi_backend/scripts/rollback_drill.py:639-666 | Whatever the rollback loader returns has well-formed admitted keys and stripped one-line values. |
| EnvironmentFile.VerticalTabIsLost | fastapi_backend/scripts/rollback_drill.py:1127-1148 | Counterexample: a binding path with a vertical tab is written and neither loader reads it back, while the same path without it is. |
| EnvironmentFile.ActivationRejectsWriter | fastapi_backend/scripts/release_activation.py:171-195 | The activation loader, which insists on single quotes, rejects every nonempty file of the rollback writer. |
| EnvironmentFile.ReadEntry | fastapi_backend/scripts/rollback_drill.py:639-656 | One line holding a valid key and a clean value is read as exactly that entry. |
| EnvironmentFile.QuotedReads | fastapi_backend/scripts/release_trust.py:91-120 | A quoted value is read as what stands between the quotes, blanks and all, by the trust and the activation loader. |
| EnvironmentFile.LineRefusals | fastapi_backend/scripts/rollback_drill.py:639-656 | What every loader does with a tight line: skips blanks and comments, and refuses a line without an equals sign, a key met before and a malformed key, each with its own error. |
| EnvironmentFile.FileAccepted | fastapi_backend/scripts/rollback_drill.py:639-666 | Of the files whose lines read, the rollback loader refuses exactly those with the inline secret or a key that is not admitted, the others exactly the empty one. |
| EnvironmentFile.StripTight | fastapi_backend/scripts/rollback_drill.py:642-656 | Stripping yields a part of the text without outer blanks and leaves exactly such texts alone. |

## Left out

- RequestModel: requests without an audit recorder have no barrier; the model gives every request one.
- RequestModel: timeouts and disconnects appear as the cancellation of a queued future and as the handler moving on; `asyncio.wait_for`, `shield` and the event loop are not modelled, and neither is the result a waiter finally receives.
- RequestModel: an audit emit is assumed not to raise, and a cache callback that raises counts as one that returns false.
- RequestClasses.IdempotentRequestCoordinator.Prune: entries with equal completion times may be dropped in either order, where the source follows insertion order.
- HttpAudit: the serialization event and the recorder's enrichment are ordinary handler events; header parsing and release fields are not modelled.
- ReleaseActivation: file permissions, owner checks, partial writes, the JSON form of the state file and the Compose command line; trust verification and Compose are success or failure steps, and a child reads its environment file when it starts.
- ReceiptChain: SHA-256 and canonical JSON are replaced by free constructors; coercions between JSON numbers and booleans are not modelled, and neither are file modes.
- Remediation: the contents of run, failure and verification documents; only the log protocol is modelled.
- SingleUse: authoring validation, case execution and report contents.
- Percentile: floating-point error; the proofs are over the reals and any monotone rounding.
- Benchmark: latencies, body sizes, rates and memory snapshots, and a worker barrier that breaks inside a wave.
- BenchmarkReport.ComparisonContract: the JSON types of the fields are taken as given, and of the target only its two digests and its field names are kept; the side-by-side comparison of two reports is not modelled.
- PhaseSlices.LegacyPhaseSlices: integer parsing is a parameter.
- Shutdown.ShutDown: the path where starting the audit runtime fails, and shutdowns during application construction.
- Shutdown.WithinBudget: a stage that overruns its timeout is outside the hypothesis.
- Sealing: HMAC is an arbitrary keyed function with 32-byte results; JSON, base64 and hexadecimal decoding are parameters with a left-inverse hypothesis.
- EnvironmentFile.LoadEnvironment: file security checks, size limits, UTF-8 decoding and line numbers in messages.
- The rollback drill's chain comparison, generators, documentation checks, settings validators, event schema checks and the finance search itself: long conjunctions or code without a protocol.
