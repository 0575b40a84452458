# WoL-Monkey: the wake pipeline and three small algorithms, verified

WoL-Monkey sends Wake-on-LAN packets and follows each attempt until the machine is online. The API writes an attempt
row and queues a job; a worker in another container claims the job, sends the packet, polls the machine, and commits.
This project models that pipeline with its two tables, transactions, row locks and crash points, and three algorithms
around it: which interface a local address belongs to, the login limiter, and the magic packet.

`dafny verify dfyconfig.toml` checks everything.

## How the model is built

**The pipeline, twice.** The code that runs in sequence has the form of the source: `AttemptTable.AttemptSession` is a
session with its uncommitted statements, `JobQueue.JobQueue` is the queue, and `WakeApi.WakeMachine`, `WakeService.Wake`,
`EnsureOnline.Poll`, `EnsureOnline.RunAttempt`, `WorkerLoop.ProcessJob` and `WorkerLoop.ServeOne` are methods on them.
Between two statements other sessions may commit, which the methods `Await` stand for. What happens between processes is
the state machine of `Pipeline`: any number of workers and the API take turns, one observable statement at a time, and any
worker can fail or crash anywhere. A `Run` is a sequence of states and events from an empty database, and the theorems
speak about every run and every state in it.

The two views share their definitions, and theorems lead from each to the other. Where nobody else moves,
`TurnScripts.TurnContinuesRun` plays every outcome of `ServeOne` as a script of enabled events that leaves the same tables;
and in every turn of every run that no crash cuts off, whatever other processes do meanwhile, `Turns.EveryTurnSettles`
finds an outcome of `ServeOne`. `IsComplete` is exact in the same sense: it holds of all that `_process_job` can leave
(`AttemptInvariants.ActKeepsShape`, `WorkerLoop.TransactionIsComplete`), and all that it holds of and the tables allow can be left
(`TurnScripts.TransactionPlays`). What `Await` takes for granted (`Evolves`, `JobsEvolve`) are theorems about every run
(`PipelineTheorems.OthersRespectLocks`, `PipelineTheorems.OthersRespectHeldJob`), and that fresh UUIDs do not collide.

**Database.** A commit is atomic. A statement of a session reads the committed rows overlaid with the session's own
writes. A row written by an open transaction is locked: others wait for it. `ledger` lists the committed attempt writes
in order, each with the job that made it.

**Text and words.** Text is ASCII. 32-bit words are natural numbers with `And`, `Popcount` and `SwapBytes` defined on
binary digits and proved to be what their names say.

## What the code does, where one might expect something else

Each of these has a lemma with a concrete input or run, and a theorem that says exactly when the expectation holds.

* POST /wake returns the id of a row that its own job does not send: `WakeService.wake` makes a second one. The returned
  row stays PENDING exactly until some job that polled it commits (`PipelineTheorems.ClientRowPendingUntilPolled`).
* No write consults `can_transition_to`. A second POST /wake during a job makes the poll loop take a PENDING row straight
  to WAKING (`Counterexamples.PendingRowIsPolled`). For any number of workers the committed histories follow the
  transition table if and only if every worker commit passes the guard that `update_status` lacks
  (`Histories.LegalIffGuarded`); with one worker that is: no committed job polled a row still PENDING
  (`SoloWorker.SoloLegalUnlessPendingPolled`).
* A second worker can rewrite a finished attempt (`Counterexamples.TwoWorkersOverwrite`). For any number of workers a commit
  does so if and only if an earlier commit polled the same attempt (`Rewriting.CommitRewritesIffPolledBefore`); the
  statements that do so are the first writes to such an attempt (`Rewriting.OverwritesIffPolledBefore`). With a single
  worker it never happens (`SoloWorker.SoloFinishedIsFinal`, `SoloWorker.SoloNeverOverwrites`).
* `mark_done` is committed before the job's own writes, so a job can be done without its effects
  (`Counterexamples.DoneWithoutEffects`): it has them if and only if the second commit went through
  (`PipelineTheorems.EffectsIffCommitted`).
* Nothing puts a running job back into the queue. One whose worker dies, or gives up its turn, is never served again
  (`Counterexamples.RunningIsAbandoned`, `QueueLimits.AbandonedForEver`), and no job is stuck in running for any other
  reason (`QueueLimits.AbandonedIffDropped`).
* `_validate_mac` accepts a trailing newline, because `$` does, and `_build_magic_packet` then refuses the validated
  address (`MagicPacket.TrailingNewlineIsAccepted`); a packet is built exactly for the accepted addresses of 17
  characters (`MagicPacket.ValidatedIsSendableIffLength17`). The request schemas enforce that length separately
  (app/api/machines.py:46 and 75), so through the application the case does not arise.
* `_build_magic_packet` counts characters, and `bytes.fromhex` skips white space, so a short packet is possible
  (`MagicPacket.SpacesShortenThePacket`); the packet is proper exactly for twelve hexadecimal digits
  (`MagicPacket.ProperPacketIffTwelveDigits`). The application calls the function only with addresses read from a MACADDR
  column (app/persistence/models.py:65), which always come in colon form, so there the case is unreachable.

## Model

| member | source | states |
|---|---|---|
| PipelineTheorems.PublicationOrder | worker/main.py:103-111 | In every state of every run, any number of workers, any crash: if a write of a job is committed, the job is done; a job that is not done has left the attempts table exactly as the other transactions make it. |
| PipelineTheorems.JobPublishesOneTransaction | worker/main.py:55-77 | What a job has committed is at all times nothing, or one whole transaction of `_process_job` for the request it was enqueued with. |
| PipelineTheorems.PublishesOnce | worker/main.py:103-111 | No job commits attempt writes twice. |
| PipelineTheorems.SettledFrom | worker/main.py:105-107 | Once a job's session has committed, the job stays done and no worker ever holds it again. |
| PipelineTheorems.EffectsIffCommitted | worker/main.py:105-110 | After `mark_done` a job has all its effects if the commit of its session happened, and none otherwise. |
| PipelineTheorems.AtMostOnce | worker/job_queue.py:25-42 | `_process_job` is entered at most once for each job. |
| PipelineTheorems.NoTwoHolders | worker/job_queue.py:26-39 | No two workers hold the same job, from the row lock to the end of the turn. |
| PipelineTheorems.StatusOnlyClimbs | worker/job_queue.py:37-58 | Between any two points of a run a job's status is equal or strictly later in queued < running < done < error; creation time, attempt and request do not change. |
| Requests.EnqueuedIsPosted | app/api/wake.py:89-117 | A job is enqueued only for the request of an earlier POST /wake; it names the attempt committed then, and its payload is that request. |
| Requests.EnqueuedOnce | app/persistence/models.py:132-137 | No attempt is enqueued twice. |
| Requests.JobMakesRowOfRequest | app/services/wake.py:45-53 | What a job commits begins with a new PENDING row for the machine, polling, timeout and strategy its client asked for. |
| Requests.DirectWakeLeavesSentRow | app/api/wake.py:141-163 | POST /wake/direct adds one row, SENT and otherwise as created. |
| Requests.DirectWakePlays | app/api/wake.py:131-163 | It can do so at any time, with any fresh row that has a known strategy. |
| PipelineTheorems.RequestsSurvive | worker/main.py:44-52 | The machine, attempt, ensure_online, timeout and strategy a worker acts on are those of the request the job was enqueued with. |
| PipelineTheorems.NoHalfDoneAttempt | app/services/ensure_online.py:53-101 | No committed state of any run holds a WAKING attempt. |
| PipelineTheorems.OthersRespectLocks | app/persistence/repositories.py:258-259 | A step of another process neither removes committed rows nor changes one this worker's transaction has written. |
| PipelineTheorems.OthersRespectHeldJob | worker/job_queue.py:44-58 | No other process changes the job a worker holds, and no job disappears: what the methods assume of other processes. |
| PipelineTheorems.PollsAnActiveRow | worker/main.py:69-76 | After a successful wake a row is always found: unfinished, of the same machine, started no earlier than the row just sent, and that row itself when no other visible active one started as late; the fallback to the payload's id never happens. |
| PipelineTheorems.OnlyFirstPollWriteOverwrites | app/services/ensure_online.py:43-53 | A statement rewrites a row its session sees as finished if and only if it is the first write to a polled row that is another transaction's and is finished as committed. |
| PipelineTheorems.ClaimPassesOverOnlyHeldJobs | worker/job_queue.py:26-39 | A claim takes a queued job, and each older queued job is at that moment locked by another claimer. |
| QueueLimits.ClaimOvertakesFewerThanWorkers | worker/job_queue.py:26-33 | With n workers a claim passes over at most n - 1 older queued jobs. |
| PipelineTheorems.SoloClaimsInOrder | worker/job_queue.py:26-39 | With one worker the older of two jobs queued together has left the queue before the younger is locked, even if claims abort. |
| QueueLimits.AbandonedForEver | worker/job_queue.py:29 | A running job that no worker holds keeps its row for the rest of the run, is not served again, and never has any effects. |
| QueueLimits.AbandonedIffDropped | worker/main.py:97-113 | A job is running with no worker holding it if and only if at some earlier step its worker died, or an exception escaped its turn, while it was running. |
| Rewriting.CommitRewritesIffPolledBefore | app/persistence/repositories.py:246-259 | For any number of workers, the attempt a commit polled was finished before it if and only if an earlier commit polled the same attempt. |
| Rewriting.FinishedUntilPolledAgain | app/persistence/repositories.py:246-259 | For any number of workers a finished attempt keeps every column until a commit polls it. |
| Rewriting.OverwritesIffPolledBefore | app/services/ensure_online.py:43-53 | A statement rewrites a row its session sees as finished if and only if it is the first write to a polled row of another transaction that an earlier commit has polled. |
| Rewriting.FinishedTargetWasPolled | worker/main.py:69-76 | A row some worker has picked, if it is finished as committed, was polled by an earlier commit. |
| PipelineTheorems.ClientRowPendingUntilPolled | app/api/wake.py:89-99 | The row whose id POST /wake returns stays as created, PENDING, if and only if no job that polled it has committed. |
| JobInvariants.StepKeepsJobs | worker/job_queue.py:23-80 | Every step of every process keeps the invariant that ties each worker's state to its job's status, payload and starts, and jobs to single holders. |
| JobInvariants.StepClimbs | worker/job_queue.py:37-58 | One step never removes a job, never lowers its status, and never changes its creation time. |
| AttemptInvariants.FallbackIsDisabled | worker/main.py:70-76 | With the invariants the branches for "no active attempt" and "attempt not found" cannot be taken. |
| AttemptInvariants.ActKeepsShape | worker/main.py:55-77 | Each action of a job leads from one listed transaction shape to another, so that a finished `_process_job` leaves a complete one. |
| AttemptInvariants.ActLocksFreeRow | app/persistence/repositories.py:233-259 | Each action keeps the rows written by two open transactions apart. |
| AttemptInvariants.CompleteLeavesNoWaking | app/services/ensure_online.py:53-101 | A complete transaction leaves no row WAKING that was not so before. |
| AttemptInvariants.StepKeepsLedger | worker/main.py:103-111 | Each step keeps the attempts table equal to the replay of the committed writes, and every publishing job done and let go. |
| AttemptInvariants.InvariantsAt | worker/main.py:97-113 | The job and attempt invariants hold in every state of every run. |
| Histories.LegalIffGuarded | app/domain/wake_attempt.py:26-35 | All committed status histories follow the transition table if and only if at each worker commit the polled row could take the first status written to it. |
| Histories.CommitLegality | app/persistence/repositories.py:246-259 | One commit keeps all histories legal exactly when the missing guard would have let it pass. |
| Histories.OwnHistoryIsLegal | app/services/wake.py:46-77 | What a job writes to the row it made itself is always a path of the transition table. |
| SoloWorker.SoloAttemptsConsistent | app/services/ensure_online.py:45-101 | With one worker, in every committed state finished_at is set exactly for terminal attempts and error exactly for failed and timed-out ones. |
| SoloWorker.SoloFinishedIsFinal | app/persistence/repositories.py:246-259 | With one worker a committed terminal attempt keeps every column for the rest of the run. |
| SoloWorker.SoloNeverOverwrites | app/persistence/repositories.py:246-259 | With one worker no statement, committed or not, rewrites a finished attempt. |
| SoloWorker.SoloLegalUnlessPendingPolled | app/domain/wake_attempt.py:26-35 | With one worker the histories are legal if and only if no committed job took a PENDING row of another transaction to WAKING. |
| Counterexamples.PendingRowIsPolled | app/services/ensure_online.py:53 | A run of one worker that commits the history pending, waking, online. |
| Counterexamples.TwoWorkersOverwrite | app/persistence/repositories.py:246-259 | A run of two workers in which a committed ONLINE attempt becomes TIMEOUT. |
| Counterexamples.DoneWithoutEffects | worker/main.py:106-107 | A run in which a job is done, nobody holds it, and none of its writes were stored. |
| Counterexamples.RunningIsAbandoned | worker/job_queue.py:37-42 | A run in which a job is running and nobody holds it. |
| Turns.EveryTurnSettles | worker/main.py:97-113 | In any run, with any interference, a turn that no crash cuts off leaves its job as it was, if the claim was aborted, or as the method can; the job has then published its complete transaction if its last step was the commit, and nothing otherwise. |
| Turns.LastStepSettles | worker/main.py:105-113 | The last step of a turn leaves the row that the outcome of its commits calls for. |
| Turns.ServingFrom | worker/job_queue.py:37-42 | From the lock to the end of the turn the job's row differs from what was locked only in status and claim time. |
| TurnScripts.TurnContinuesRun | worker/main.py:97-113 | Every run in which a worker is idle can go on with any outcome of a turn, by steps of that worker alone, to the same tables. |
| TurnScripts.UnclaimedPlays | worker/job_queue.py:37-39 | A claim whose commit fails is a script of two events that ends where it began. |
| TurnScripts.PostPlays | app/api/wake.py:89-117 | POST /wake can put any fresh attempt and its job into the tables at any time. |
| TurnScripts.CrashPlays | worker/main.py:97-113 | A worker can die at any point, and leaves the tables as they are. |
| TurnScripts.UnstartedPlays | worker/main.py:99-103 | A claimed job can be given up before it starts, and is then left running with nobody holding it. |
| TurnScripts.BrokenWakePlays | worker/main.py:64-66 | When the database aborts the transaction during the wake, `_process_job` returns with nothing to commit. |
| TurnScripts.TransactionPlays | worker/main.py:40-77 | Every complete transaction the tables allow is written by some sequence of enabled actions of `_process_job`. |
| TurnScripts.ClosingPlays | worker/main.py:105-113 | Every combination of failing commits after `_process_job` is a script of enabled events to the settled tables. |
| AttemptStatuses.StepsClimb | app/domain/wake_attempt.py:26-35 | The table in other words: each step climbs pending < sent < waking < terminal, and from pending it leads to sent or failed only. |
| AttemptStatuses.PathsEndInTerminal | app/domain/wake_attempt.py:26-39 | A path of the table has at most four statuses, is maximal exactly when its last one is terminal, and otherwise can go on to FAILED. |
| AttemptStatuses.PathExtends | app/domain/wake_attempt.py:26-35 | Two paths joined are a path exactly when the seam is a legal transition. |
| AttemptTable.AttemptSession.Create | app/persistence/repositories.py:233-238 | The session sees its view with the new row added. |
| AttemptTable.AttemptSession.UpdateStatus | app/persistence/repositories.py:246-259 | Status always, error and finish time only when given, change in that one row and nothing else does; an unknown id changes nothing. |
| AttemptTable.AttemptSession.GetActiveForMachine | app/persistence/repositories.py:271-282 | None exactly when every row of the machine is online, failed or timed out; otherwise a pending, sent or waking one such that no other started later. |
| AttemptTable.AttemptSession.Commit | app/persistence/database.py:44-47 | The committed table becomes what the session saw, and its statements are published. |
| AttemptTable.AttemptSession.Rollback | app/persistence/database.py:48-49 | The open transaction is dropped; what is committed and published stays. |
| AttemptTable.StatusIsLastWritten | app/persistence/repositories.py:246-259 | A row exists exactly if something was written to it, and its status is the last one written. |
| AttemptTable.ApplyFrame | app/persistence/repositories.py:246-259 | A transaction changes no row but those its statements name, and removes none. |
| AttemptTable.OwnRowsAreStable | app/persistence/repositories.py:240-259 | The rows a session has written read the same to it whatever others commit meanwhile. |
| WakeApi.WakeMachine | app/api/wake.py:75-123 | The PENDING attempt is committed before a job names it; the queued job decodes to all the client asked for; a failure before the first commit leaves nothing, one between the two leaves the attempt and no job. |
| WakeService.Wake | app/services/wake.py:29-86 | No row for a missing or disabled machine; otherwise one row, left sent with its id returned, failed with error and finish time, or, for a strategy outside the table, as created. |
| WakeService.DirectWake | app/api/wake.py:131-163 | The endpoint publishes one SENT row or nothing at all. |
| EnsureOnline.Probe | app/infra/state_probe.py:33-63 | Online exactly when the host answers ping or TCP, or a distinct non-empty fallback address does. |
| EnsureOnline.Poll | app/services/ensure_online.py:72-103 | ONLINE exactly when some round begun in time is online and all before it were offline, TIMEOUT exactly when all rounds begun in time were offline, written with the finish time of the deciding round; no round begins at or after the deadline; at most ceil(remaining / interval) rounds. |
| EnsureOnline.RunAttempt | app/services/ensure_online.py:33-103 | Every return is terminal; a known attempt gets FAILED when its machine is gone, and otherwise WAKING followed by the outcome of polling, timed from the start of the attempt. |
| EnsureOnline.StatusTells | app/services/ensure_online.py:72-101 | The status written at the end of polling is ONLINE exactly if a round begun in time finds the machine online, and TIMEOUT exactly if all do not. |
| EnsureOnline.OutcomesExclude | app/services/ensure_online.py:72-101 | No world allows both outcomes. |
| EnsureOnline.TimeoutIsPrompt | app/services/ensure_online.py:72-103 | With probes of at most P and sleeps of the interval I, a TIMEOUT after a round is decided in [timeout, timeout + I + P). |
| JobQueue.JobQueue.ClaimNext | worker/job_queue.py:23-42 | Claims the oldest free queued job and only it, None exactly when none is free; a failed commit changes nothing. |
| JobQueue.JobQueue.MarkDone | worker/job_queue.py:44-49 | Sets the status of that job to done, whatever it was, and changes nothing else. |
| JobQueue.JobQueue.MarkError | worker/job_queue.py:51-58 | Sets that job to error with the error as its payload, and changes nothing else. |
| JobQueue.OldestExists | worker/job_queue.py:29-31 | Among free jobs there is always an oldest one to claim. |
| WorkerLoop.PollActive | worker/main.py:68-77 | It returns unless a statement fails; the polled row was then a latest active one of the machine in what the session saw, failed if its machine is gone, and otherwise taken to WAKING and to ONLINE or TIMEOUT as the network of the rounds begun in time decides. |
| WorkerLoop.ProcessJob | worker/main.py:40-77 | It returns exactly if the payload can be decoded and no statement of the polling fails, where it comes to polling; its transaction is then exactly what the wake writes, followed by the polling if the packet was sent and the order asks for it. |
| WorkerLoop.TransactionIsComplete | worker/main.py:55-77 | The transaction of a job has one of the shapes the pipeline's workers leave; it is empty exactly for a missing or disabled machine, polls exactly when it came to that, and its second write is SENT exactly if the packet went out. |
| WorkerLoop.Settle | worker/main.py:103-111 | The turn completes, escapes or ends in error exactly as processing and the commits after it succeed; the job's row is the settled one, and the transaction is published if the turn completes and dropped otherwise. |
| WorkerLoop.ServeOne | worker/main.py:97-113 | One turn claims the oldest free job. It completes exactly if `_process_job` returns and both commits succeed, and has then published exactly the transaction of that job; otherwise it publishes nothing and the job ends in error, or is left as it was if that cannot be stored. No job, or a claim that cannot be committed, changes nothing. |
| Payloads.DecodeEncode | app/api/wake.py:108-116 | For every request the worker's decoding of the payload gives back all its fields. |
| Payloads.EncodeIsInjective | app/api/wake.py:108-116 | Different requests have different payloads. |
| Payloads.DecodeIsTotalButForTimeout | worker/main.py:44-52 | For any payload: decoding fails exactly if there is a timeout that is no integer; missing entries have their defaults; flags are false exactly for null, false, 0 and the empty text. |
| Payloads.KnownStrategies | app/infra/wake_strategy.py:95-103 | The strategies a request can name are exactly those `get_strategy` knows. |
| PythonText.DecimalRoundTrip | worker/main.py:47 | int(str(n)) is n for every integer. |
| PythonText.NumeralsWithTrimmings | worker/main.py:47 | int() reads through surrounding white space, a plus sign, a 0x prefix and an underscore between digits. |
| PythonText.SpaceCodes | app/api/system.py:119 | The codes of the two kinds of white space. |
| PythonText.HexRoundTrip | app/api/system.py:90 | int(h, 16) of a zero-padded hexadecimal numeral is the number printed. |
| Words.SwapReverses | app/api/system.py:88-90 | Swapping turns the word of bytes d, c, b, a into the word of a, b, c, d. |
| Words.SwapTwice | app/api/system.py:88-90 | The byte swap is its own inverse. |
| Words.SwapKeepsPopcount | app/api/system.py:134 | The byte swap keeps the number of one bits, which is the sort key. |
| Words.AndIsBitwise | app/api/system.py:145 | Each bit of the conjunction is the product of the operands' bits. |
| Words.AndAssociates | app/api/system.py:145 | The conjunction is associative. |
| Words.InSubnetIffBitsAgree | app/api/system.py:145 | The test of the source holds exactly if address and network have the same bits wherever the mask has a one. |
| Words.MaskIsShiftedOnes | app/api/system.py:133-134 | The contiguous masks are ones moved up to the top of the word, and their sort key is the number of these ones. |
| Words.MasksNest | app/api/system.py:133-147 | Of two contiguous masks the longer has all the ones of the shorter. |
| Words.LongerMaskIsInside | app/api/system.py:133-147 | If two contiguous subnets share an address, the one with the longer mask lies inside the other. |
| RouteText.RouteWordOfAddress | app/api/system.py:88-90 | The route word of the kernel's text for a.b.c.d is the big-endian value of a.b.c.d. |
| RouteText.SkippedIff | app/api/system.py:138 | The addresses skipped by their text are those that begin with byte 127 or end in byte 0 or 255. |
| RouteText.GroupsAsInetAtonReadsThem | app/api/system.py:141 | A group with a leading zero is octal, and a group above 255 is no address byte. |
| RouteText.AtonOfAddress | app/api/system.py:141 | The dotted text of an address and its route word have the same value. |
| KernelTables.LeafReadsBack | app/api/system.py:105-107 | The pattern for trie leaves captures the address of every leaf the kernel prints, at any depth. |
| KernelTables.LeafShape | app/api/system.py:105 | A line is taken for a leaf only if it begins with white space, the bars and white space, and what is captured are the digits and dots there. |
| KernelTables.PrintedLocalIsFound | app/api/system.py:103-113 | Every leaf the kernel prints with a line saying LOCAL under it is found, wherever it stands. |
| KernelTables.FoundIsLocal | app/api/system.py:103-113 | Every address found stands on a leaf line whose next line is no leaf and contains "/32 host LOCAL". |
| KernelTables.RouteReadsBack | app/api/system.py:118-129 | A line of the route table reads back as the interface, network and mask that were printed if the route is up, and is skipped otherwise. |
| KernelTables.FieldsOfTabbed | app/api/system.py:119 | Splitting a line of tab-separated words gives back the words. |
| IfaceAddresses.ScanTrie | app/api/system.py:99-113 | For every sequence of lines: exactly the addresses of leaf lines whose very next line is no leaf and says LOCAL. |
| IfaceAddresses.ReadRoutes | app/api/system.py:117-131 | The routes of the well-formed lines that are up, in the order of the table. |
| IfaceAddresses.SortRoutes | app/api/system.py:134 | The routes of the table, each once, the longest masks first and equally long ones in table order. |
| IfaceAddresses.SortedIndicesOrdered | app/api/system.py:134 | The insertion sort orders by mask length, and equal lengths by line. |
| IfaceAddresses.FirstHit | app/api/system.py:144-147 | The first matching route of the sorted table, none exactly when none matches. |
| IfaceAddresses.FirstHitIsLongestMatch | app/api/system.py:133-147 | After any stable sort the first hit is the longest match, ties to the earliest line. |
| IfaceAddresses.LongestMatchIsUnique | app/api/system.py:133-147 | There is at most one longest match. |
| IfaceAddresses.LongestMatchIsInnermost | app/api/system.py:133-147 | With contiguous masks the chosen subnet lies inside every other matching subnet. |
| IfaceAddresses.HomeOf | app/api/system.py:137-147 | The interface of an address is that of its longest match, none when skipped, unreadable or unmatched. |
| IfaceAddresses.Assign | app/api/system.py:136-147 | Whatever order the set is visited in, the lists hold exactly the addresses that belong there, each once. |
| IfaceAddresses.ParseIfaceIps | app/api/system.py:93-149 | The whole function, for every address a.b.c.d: if it is local, not of the loopback network, does not end in byte 0 or 255, and some route contains it, it is listed once, under the containing route with the longest mask, ties to the earliest line; otherwise it is listed nowhere. |
| IfaceAddresses.AssignmentFollowsRule | app/api/system.py:133-149 | Every assignment follows the rule that ParseIfaceIps states, address by address. |
| IfaceAddresses.ListedOnceOrNowhere | app/api/system.py:136-149 | An address is listed once under its interface and nowhere else. |
| IfaceAddresses.VisitingOrderIsImmaterial | app/api/system.py:137-138 | Two visiting orders give the same interfaces and the same addresses under each. |
| IfaceAddresses.ListedIffMatched | app/api/system.py:137-147 | An eligible address has an interface exactly when some route matches it. |
| LoginLimiter.Limiter.Check | app/api/auth.py:47-58 | A call is allowed exactly if fewer than five calls of its address were allowed in the 60 seconds before it, and at most five timestamps are kept for an address. |
| LoginLimiter.AcceptedIffFewerThanFive | app/api/auth.py:50-58 | For every sequence of calls, a call is accepted exactly if fewer than five of its address were accepted less than 60 seconds before it. |
| LoginLimiter.CheckTracks | app/api/auth.py:50-58 | One call keeps the pruned dictionary in step with the full history, for every address and every later moment. |
| LoginLimiter.PruneTwice | app/api/auth.py:51 | Pruning earlier does not change what a later pruning leaves. |
| LoginLimiter.FiveApart | app/api/auth.py:40-58 | Between an accepted login and the fifth accepted one after it lie at least 60 seconds. |
| LoginLimiter.WindowBound | app/api/auth.py:40-58 | In every run, of every address, at most five accepted calls fall into any half-open window of 60 seconds. |
| LoginLimiter.RefusedAndForeignCallsAreInvisible | app/api/auth.py:50-58 | Refused calls and other addresses never change a later decision. |
| LoginLimiter.RetryAfterIsTruthful | app/api/auth.py:53-57 | A refused client that returns 60 seconds later, with none of its calls accepted in between, is let in. |
| LoginLimiter.RefusedForTheWholeWindow | app/api/auth.py:53-57 | And no shorter time would do: after five logins at one moment every call short of 60 seconds is refused. |
| MagicPacket.AcceptedIffColonForm | app/api/machines.py:26-32 | Accepted are the colon forms of six bytes, in either case, and these with a newline behind them, and nothing else; the result is the text in lower case. |
| MagicPacket.ColonHexIsInjective | app/api/machines.py:32 | Different bytes have different colon forms. |
| MagicPacket.PacketOfMac | app/infra/wake_strategy.py:22-28 | For every six bytes and every way of typing their colon form: the validated address is the lower-case colon form, and the packet is six times FF and then the six bytes sixteen times, 102 bytes in all. |
| MagicPacket.PairsRoundTrip | app/infra/wake_strategy.py:24-27 | The digits of a colon text are the bytes whose colon printing is the text in lower case. |
| MagicPacket.SpellingIsImmaterial | app/infra/wake_strategy.py:24 | Case and the choice of separator change neither the packet nor whether there is one. |
| MagicPacket.ValidatedIsSendableIffLength17 | app/api/machines.py:26-32 | An accepted address can be sent exactly when it has 17 characters, which it has exactly when it is the colon form of six bytes. |
| MagicPacket.TrailingNewlineIsAccepted | app/api/machines.py:26-32 | An address that is accepted and cannot be sent. |
| MagicPacket.ProperPacketIffTwelveDigits | app/infra/wake_strategy.py:24-28 | For any text the packet has its proper length exactly when the cleaned text is twelve hexadecimal digits. |
| MagicPacket.SpacesShortenThePacket | app/infra/wake_strategy.py:25-28 | A text of twelve characters that makes a packet of 86 bytes. |

## Left out

- Sockets, ping and etherwake processes, and their output: the network's answers and a strategy's success are parameters.
- The real clock, sleeping and asyncio: clock readings are parameters. The poll loop's are at least one interval apart,
  because it sleeps for that long; the limiter's never go back, because the clock is monotonic and no call is suspended
  between reading it and deciding.
- PostgreSQL and SQLAlchemy inside: a commit succeeds or fails as a whole, and a client is never in doubt which; a
  session's reads are statement by statement (READ COMMITTED).
- WakeService.Wake: a statement that fails inside the database is an event of the state machine (`WakeDbError`), not a
  branch of this method; exception texts are shortened.
- EnsureOnline.Poll: the finish time written is the reading of the loop's round, where the source reads the clock once more;
  the two signals and the observation time of a probe result are not kept.
- EnsureOnline.RunAttempt: the branches for an attempt without a start time or with a naive one, which the not-null column
  with time zone rules out.
- WorkerLoop.ServeOne: one turn of the loop; the endless outer `while`, the shutdown flag and the pause between turns are
  not modelled.
- WakeApi.WakeMachine: the job type and machine id columns of the job, which nothing reads back; authentication.
- AttemptTable.AttemptSession.GetActiveForMachine: rows that started at the same instant may be returned in any order, as
  in SQL.
- RouteText.AtonOfAddress: `inet_aton` is modelled for texts of four groups of digits, the only ones the trie pattern
  captures.
- IfaceAddresses.ParseIfaceIps: starts from the two tables as lines; reading /proc and `splitlines` are left out.
- PythonText.DecimalRoundTrip: Python's limit on the number of digits int() accepts is not modelled.
- Digits, white space and letters outside ASCII, which Python's `\d`, `\s`, `int`, `upper` and `lower` also know.
- Floating point: the limiter's clock is a real number, other times are whole microseconds.
- Payload values that are lists, objects or fractions, and keys other than the eight the code uses.
- Deleting machines and the cascades that follow; how database errors map to HTTP responses.
- The other modules (passwords, sessions, tokens, the setup wizard, settings, migrations, templates, network discovery):
  thin wrappers and single-branch facts.
