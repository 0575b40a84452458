/** The wake pipeline as a state machine: the API processes (app/api/wake.py) and any number of workers
    (worker/main.py, worker/job_queue.py, app/services/wake.py, app/services/ensure_online.py) take turns on one
    database. One event is one statement that another process can observe or fall between. */
module Pipeline {
  import opened Wrappers
  import opened AttemptStatuses
  import opened AttemptTable
  import opened Payloads

  type JobId = string
  type WorkerId = nat

  datatype JobStatus = Queued | Running | Done | Error

  datatype Job = Job(attempt: AttemptId, status: JobStatus, payload: Payload, createdAt: Time, claimedAt: Option<Time>)

  type Jobs = map<JobId, Job>

  /** How far `_process_job` has come: `own` is the row `WakeService.wake` made, `target` the row being polled. */
  datatype Phase =
    | Begin
    | Created(own: AttemptId)
    | Woken(own: AttemptId)
    | Picked(own: AttemptId, target: AttemptId)
    | Polling(own: AttemptId, target: AttemptId)
    | Finished

  /** One turn of the `run_worker` loop. Every state but Idle holds a job; Processing and Committing also hold the
      open transaction of the job's session. */
  datatype Worker =
    | Idle
    | Locking(job: JobId)
    | Claimed(job: JobId, payload: Payload)
    | Processing(job: JobId, order: WakeOrder, log: Log, phase: Phase)
    | Committing(job: JobId, order: WakeOrder, log: Log)
    | RolledBack(job: JobId)

  /** What one worker does inside its own transaction. */
  datatype Action =
    | Refuse                                      // wake: machine missing or disabled
    | CreateRow(id: AttemptId, row: Attempt)      // wake: INSERT
    | UnknownStrategy                             // get_strategy raises
    | Send                                        // the packet went out
    | SendFails(error: string, now: Time)         // the strategy raised
    | WakeDbError                                 // a statement of wake failed and PostgreSQL aborted the transaction
    | NoPolling                                   // ensure_online is false
    | Pick(target: AttemptId)                     // get_active_for_machine found a row
    | PickNone                                    // it found none: fall back to the payload's attempt id
    | AttemptMissing                              // run: get_by_id found no attempt
    | MachineMissing(now: Time)                   // run: the machine is gone
    | StartPolling                                // run: UPDATE to WAKING
    | ComesOnline(now: Time)
    | TimesOut(error: string, now: Time)

  datatype Event =
    | PostWake(row: AttemptId, attempt: Attempt, request: WakeRequest)   // POST /wake: INSERT, then db.commit()
    | Enqueue(id: JobId, row: AttemptId, createdAt: Time)                // POST /wake: JobQueue.enqueue
    | DirectWake(row: AttemptId, attempt: Attempt)                       // POST /wake/direct succeeded and committed
    | Lock(w: WorkerId, id: JobId)               // claim_next: SELECT ... FOR UPDATE SKIP LOCKED
    | ClaimCommit(w: WorkerId, now: Time)        // claim_next: commit
    | ClaimAbort(w: WorkerId)                    // claim_next: the commit failed
    | Start(w: WorkerId)                         // _process_job is entered
    | Act(w: WorkerId, action: Action)
    | MarkDone(w: WorkerId)                      // mark_done, committed by its own session
    | Commit(w: WorkerId)                        // session.commit()
    | Throw(w: WorkerId)                         // an exception, session.rollback()
    | MarkError(w: WorkerId, error: string)      // mark_error, committed by its own session
    | GiveUp(w: WorkerId)                        // an exception outside the inner try: "worker_loop_error"
    | Crash(w: WorkerId)                         // the process dies and a fresh one takes its place

  datatype Source = Api | ByJob(job: JobId)

  datatype Entry = Entry(source: Source, write: Write)

  /** `attempts` and `jobs` are the committed tables. The last four components only record what happened:
      `ledger` every committed attempt write in commit order, `requests` what each job was enqueued with, `pending`
      the POST /wake requests that have not enqueued yet, `starts` each entry into `_process_job`. */
  datatype State = State(
    attempts: Table, jobs: Jobs, workers: seq<Worker>,
    ledger: seq<Entry>, requests: map<JobId, WakeRequest>, pending: map<AttemptId, WakeRequest>, starts: seq<JobId>)

  function Initial(n: nat): State {
    State(map[], map[], seq(n, _ => Idle), [], map[], map[], [])
  }

  function LogOf(wk: Worker): Log {
    if wk.Processing? || wk.Committing? then wk.log else []
  }

  /** What a statement of this worker's session sees. */
  function View(s: State, w: WorkerId): Table
    requires w < |s.workers|
  {
    Apply(s.attempts, LogOf(s.workers[w]))
  }

  /** The row is not row-locked by a transaction of another worker. */
  predicate Unlocked(s: State, w: WorkerId, id: AttemptId) {
    forall v :: 0 <= v < |s.workers| && v != w ==> id !in Touched(LogOf(s.workers[v]))
  }

  /** UUIDs are drawn fresh. */
  predicate FreshAttempt(s: State, id: AttemptId) {
    id !in s.attempts && forall v :: 0 <= v < |s.workers| ==> id !in Touched(LogOf(s.workers[v]))
  }

  /** The job rows that claimers hold a row lock on. */
  function LockedJobs(s: State): set<JobId> {
    set v | 0 <= v < |s.workers| && s.workers[v].Locking? :: s.workers[v].job
  }

  /** The row `claim_next` locks: queued, not locked by another claimer, and none of those is older. */
  predicate IsOldestFree(jobs: Jobs, locked: set<JobId>, id: JobId) {
    && id in jobs && jobs[id].status == Queued && id !in locked
    && forall x :: x in jobs && jobs[x].status == Queued && x !in locked ==> jobs[id].createdAt <= jobs[x].createdAt
  }

  /** The error of an attempt whose machine was deleted before it could be polled. */
  const MACHINE_GONE := "Machine not found"

  /** A row as `create` inserts it. */
  predicate IsNewRow(row: Attempt) {
    row.status == Pending && row.error == None && row.finishedAt == None
  }

  /** The attempt POST /wake makes under the id `row`, and the request it then enqueues, belong together. */
  predicate IsPosted(row: AttemptId, attempt: Attempt, r: WakeRequest) {
    && IsNewRow(attempt) && r.attempt == row && r.machine == attempt.machine
    && r.ensureOnline == attempt.ensureOnline && r.pollTimeout == attempt.pollTimeout
    && (r.strategy.Some? ==> attempt.strategy == r.strategy.value.Value())
  }

  /** The row `WakeService.wake` creates for an order; its strategy is the override, else the machine's. */
  predicate IsRowFor(o: WakeOrder, row: Attempt) {
    && IsNewRow(row) && row.machine == o.machine && row.ensureOnline == o.ensureOnline && row.pollTimeout == o.pollTimeout
    && (o.strategyOverride.Some? && o.strategyOverride.value != "" ==> row.strategy == o.strategyOverride.value)
  }

  function SentWrite(id: AttemptId): Write {
    Update(id, Sent, None, None)
  }

  function WakingWrite(id: AttemptId): Write {
    Update(id, Waking, None, None)
  }

  function FailedWrite(id: AttemptId, error: string, now: Time): Write {
    Update(id, Failed, Some(error), Some(now))
  }

  function OnlineWrite(id: AttemptId, now: Time): Write {
    Update(id, Online, None, Some(now))
  }

  function TimeoutWrite(id: AttemptId, error: string, now: Time): Write {
    Update(id, Timeout, Some(error), Some(now))
  }

  /** The actions `_process_job` can come to next. */
  predicate ActionInPlace(wk: Worker, a: Action)
    requires wk.Processing?
  {
    match a
    case Refuse => wk.phase.Begin?
    case CreateRow(_, row) => wk.phase.Begin? && IsRowFor(wk.order, row)
    case UnknownStrategy => wk.phase.Created?
    case Send => wk.phase.Created?
    case SendFails(_, _) => wk.phase.Created?
    case WakeDbError => wk.phase.Begin? || wk.phase.Created?
    case NoPolling => wk.phase.Woken? && !wk.order.ensureOnline
    case Pick(_) => wk.phase.Woken? && wk.order.ensureOnline
    case PickNone => wk.phase.Woken? && wk.order.ensureOnline
    case AttemptMissing => wk.phase.Picked?
    case MachineMissing(_) => wk.phase.Picked?
    case StartPolling => wk.phase.Picked?
    case ComesOnline(_) => wk.phase.Polling?
    case TimesOut(_, _) => wk.phase.Polling?
  }

  /** What the action reads, and the row lock its UPDATE needs. */
  predicate ActionGuard(s: State, w: WorkerId, a: Action)
    requires w < |s.workers| && s.workers[w].Processing? && ActionInPlace(s.workers[w], a)
  {
    var wk := s.workers[w];
    var view := View(s, w);
    match a
    case CreateRow(id, _) => FreshAttempt(s, id)
    case UnknownStrategy => wk.phase.own in view && !IsKnownStrategy(view[wk.phase.own].strategy)
    case Send => wk.phase.own in view && IsKnownStrategy(view[wk.phase.own].strategy)
    case SendFails(_, _) => wk.phase.own in view && IsKnownStrategy(view[wk.phase.own].strategy)
    case Pick(target) => IsLatestActive(view, wk.order.machine, target)
    case PickNone => forall x :: x in view ==> !IsActiveFor(view, wk.order.machine, x)
    case AttemptMissing => wk.phase.target !in view
    case MachineMissing(_) => wk.phase.target in view && Unlocked(s, w, wk.phase.target)
    case StartPolling => wk.phase.target in view && Unlocked(s, w, wk.phase.target)
    case _ => true
  }

  /** The statement an action sends, if it sends one. */
  function Statement(wk: Worker, a: Action): Log
    requires wk.Processing? && ActionInPlace(wk, a)
  {
    match a
    case CreateRow(id, row) => [Insert(id, row)]
    case Send => [SentWrite(wk.phase.own)]
    case SendFails(error, now) => [FailedWrite(wk.phase.own, error, now)]
    case MachineMissing(now) => [FailedWrite(wk.phase.target, MACHINE_GONE, now)]
    case StartPolling => [WakingWrite(wk.phase.target)]
    case ComesOnline(now) => [OnlineWrite(wk.phase.target, now)]
    case TimesOut(error, now) => [TimeoutWrite(wk.phase.target, error, now)]
    case _ => []
  }

  function NextPhase(wk: Worker, a: Action): Phase
    requires wk.Processing? && ActionInPlace(wk, a)
  {
    match a
    case CreateRow(id, _) => Created(id)
    case Send => Woken(wk.phase.own)
    case Pick(target) => Picked(wk.phase.own, target)
    case PickNone => if wk.order.attempt == "" then Finished else Picked(wk.phase.own, wk.order.attempt)
    case StartPolling => Polling(wk.phase.own, wk.phase.target)
    case _ => Finished
  }

  function Acted(wk: Worker, a: Action): Worker
    requires wk.Processing? && ActionInPlace(wk, a)
  {
    Processing(wk.job, wk.order, if a.WakeDbError? then [] else wk.log + Statement(wk, a), NextPhase(wk, a))
  }

  /** The worker stands where the step takes place. */
  predicate InPlace(s: State, e: Event) {
    match e
    case PostWake(_, _, _) => true
    case Enqueue(_, row, _) => row in s.pending
    case DirectWake(_, _) => true
    case Lock(w, _) => w < |s.workers| && s.workers[w].Idle?
    case ClaimCommit(w, _) => w < |s.workers| && s.workers[w].Locking? && s.workers[w].job in s.jobs
    case ClaimAbort(w) => w < |s.workers| && s.workers[w].Locking?
    case Start(w) => w < |s.workers| && s.workers[w].Claimed?
    case Act(w, a) => w < |s.workers| && s.workers[w].Processing? && ActionInPlace(s.workers[w], a)
    case MarkDone(w) => w < |s.workers| && s.workers[w].Processing? && s.workers[w].phase.Finished? && s.workers[w].job in s.jobs
    case Commit(w) => w < |s.workers| && s.workers[w].Committing?
    case Throw(w) => w < |s.workers| && (s.workers[w].Processing? || s.workers[w].Committing?)
    case MarkError(w, _) => w < |s.workers| && s.workers[w].RolledBack? && s.workers[w].job in s.jobs
    case GiveUp(w) => w < |s.workers| && (s.workers[w].Claimed? || s.workers[w].RolledBack?)
    case Crash(w) => w < |s.workers|
  }

  /** What the job table must allow. */
  predicate JobGuard(s: State, e: Event) {
    match e
    case Enqueue(id, _, _) => id !in s.jobs
    case Lock(_, id) => IsOldestFree(s.jobs, LockedJobs(s), id)
    case _ => true
  }

  /** What the attempt table must allow. */
  predicate AttemptGuard(s: State, e: Event)
    requires InPlace(s, e)
  {
    match e
    case PostWake(row, attempt, r) =>
      FreshAttempt(s, row) && IsPosted(row, attempt, r)
    case DirectWake(row, attempt) => FreshAttempt(s, row) && IsNewRow(attempt) && IsKnownStrategy(attempt.strategy)
    case Act(w, a) => ActionGuard(s, w, a)
    case _ => true
  }

  predicate Enabled(s: State, e: Event) {
    InPlace(s, e) && JobGuard(s, e) && AttemptGuard(s, e)
  }

  function Tagged(source: Source, log: Log): seq<Entry> {
    seq(|log|, i requires 0 <= i < |log| => Entry(source, log[i]))
  }

  function Writes(ledger: seq<Entry>): Log {
    seq(|ledger|, i requires 0 <= i < |ledger| => ledger[i].write)
  }

  /** The worker that takes the step; API steps have none. */
  function Actor(e: Event): Option<WorkerId> {
    match e
    case PostWake(_, _, _) => None
    case Enqueue(_, _, _) => None
    case DirectWake(_, _) => None
    case Lock(w, _) => Some(w)
    case ClaimCommit(w, _) => Some(w)
    case ClaimAbort(w) => Some(w)
    case Start(w) => Some(w)
    case Act(w, _) => Some(w)
    case MarkDone(w) => Some(w)
    case Commit(w) => Some(w)
    case Throw(w) => Some(w)
    case MarkError(w, _) => Some(w)
    case GiveUp(w) => Some(w)
    case Crash(w) => Some(w)
  }

  /** The acting worker after the step. */
  function NextWorker(s: State, e: Event): Worker
    requires InPlace(s, e) && Actor(e).Some?
  {
    var wk := s.workers[Actor(e).value];
    match e
    case Lock(_, id) => Locking(id)
    case ClaimCommit(_, _) => Claimed(wk.job, s.jobs[wk.job].payload)
    case Start(_) =>
      var order := Decode(wk.payload);
      if order.Success? then Processing(wk.job, order.value, [], Begin) else RolledBack(wk.job)
    case Act(_, a) => Acted(wk, a)
    case MarkDone(_) => Committing(wk.job, wk.order, wk.log)
    case Throw(_) => RolledBack(wk.job)
    case _ => Idle
  }

  function NextWorkers(s: State, e: Event): seq<Worker>
    requires InPlace(s, e)
  {
    if Actor(e).None? then s.workers else s.workers[Actor(e).value := NextWorker(s, e)]
  }

  /** The committed job table after the step. */
  function NextJobs(s: State, e: Event): Jobs
    requires InPlace(s, e)
  {
    match e
    case Enqueue(id, row, createdAt) => s.jobs[id := Job(row, Queued, Encode(s.pending[row]), createdAt, None)]
    case ClaimCommit(w, now) =>
      var j := s.workers[w].job;
      s.jobs[j := s.jobs[j].(status := Running, claimedAt := Some(now))]
    case MarkDone(w) =>
      var j := s.workers[w].job;
      s.jobs[j := s.jobs[j].(status := Done)]
    case MarkError(w, error) =>
      var j := s.workers[w].job;
      s.jobs[j := s.jobs[j].(status := JobStatus.Error, payload := ErrorPayload(error))]
    case _ => s.jobs
  }

  /** The attempt writes the step commits: the API's own, or the whole transaction of a worker's session. */
  function Published(s: State, e: Event): Log
    requires InPlace(s, e)
  {
    match e
    case PostWake(row, attempt, _) => [Insert(row, attempt)]
    case DirectWake(row, attempt) => [Insert(row, attempt), SentWrite(row)]
    case Commit(w) => s.workers[w].log
    case _ => []
  }

  function Publisher(s: State, e: Event): Source
    requires InPlace(s, e)
  {
    if e.Commit? then ByJob(s.workers[e.w].job) else Api
  }

  function Do(s: State, e: Event): State
    requires InPlace(s, e)
  {
    State(
      Apply(s.attempts, Published(s, e)),
      NextJobs(s, e),
      NextWorkers(s, e),
      s.ledger + Tagged(Publisher(s, e), Published(s, e)),
      if e.Enqueue? then s.requests[e.id := s.pending[e.row]] else s.requests,
      if e.PostWake? then s.pending[e.row := e.request] else if e.Enqueue? then s.pending - {e.row} else s.pending,
      if e.Start? then s.starts + [s.workers[e.w].job] else s.starts)
  }

  /** A run: the events, and the states before, between and after them. */
  datatype Run = Run(states: seq<State>, events: seq<Event>)

  predicate Follows(r: Run, i: nat)
    requires i < |r.events| && i + 1 < |r.states|
  {
    Enabled(r.states[i], r.events[i]) && r.states[i + 1] == Do(r.states[i], r.events[i])
  }

  /** `r` is a run of the system with `n` workers from an empty database. */
  predicate IsRun(n: nat, r: Run) {
    && |r.states| == |r.events| + 1
    && r.states[0] == Initial(n)
    && forall i :: 0 <= i < |r.events| ==> Follows(r, i)
  }

  /** The job of the worker that takes step `i`. */
  function JobOfStep(n: nat, r: Run, i: nat): Option<JobId>
    requires IsRun(n, r) && i < |r.events|
  {
    var w := Actor(r.events[i]);
    if w.Some? && w.value < |r.states[i].workers| && !r.states[i].workers[w.value].Idle?
    then Some(r.states[i].workers[w.value].job)
    else None
  }
}
