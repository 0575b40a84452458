/** Every outcome of a worker's turn, as the method ServeOne has it, is a script of enabled events. */
module TurnScripts {
  import opened Wrappers
  import opened AttemptStatuses
  import opened AttemptTable
  import opened Payloads
  import opened Pipeline
  import opened AttemptInvariants
  import opened Runs
  import opened Turns

  /** The transaction is complete, its own row is new, and the row it polls is the latest active one its session sees
      and is locked by nobody else. */
  predicate CanLeave(s: State, w: WorkerId, o: WakeOrder, log: Log)
    requires w < |s.workers|
  {
    && IsComplete(o, log)
    && (log != [] ==> FreshAttempt(s, log[0].id))
    && (|log| > 2 ==> IsLatestActive(Apply(s.attempts, log[..2]), o.machine, log[2].id) && Unlocked(s, w, log[2].id))
  }

  /** The script is made of actions of worker `w` inside its transaction. */
  predicate OnlyActs(es: seq<Event>, w: WorkerId) {
    forall e :: e in es ==> e.Act? && e.w == w
  }

  predicate OnlyBy(es: seq<Event>, w: WorkerId) {
    forall e :: e in es ==> Actor(e) == Some(w)
  }

  lemma WithTwice(s: State, w: WorkerId, a: Worker, b: Worker)
    requires w < |s.workers|
    ensures With(With(s, w, a), w, b) == With(s, w, b)
  {
    assert s.workers[w := a][w := b] == s.workers[w := b];
  }

  /** One more action at the end of a script that has moved worker `w` alone. */
  lemma Chain(s: State, es: seq<Event>, w: WorkerId, wk: Worker, a: Action)
    requires w < |s.workers| && Play(s, es) == Some(With(s, w, wk)) && wk.Processing?
    requires ActionInPlace(wk, a) && ActionGuard(With(s, w, wk), w, a)
    ensures Play(s, es + [Act(w, a)]) == Some(With(s, w, Acted(wk, a)))
  {
    PlayMore(s, es, Act(w, a));
    ActIsLocal(With(s, w, wk), w, a);
    WithTwice(s, w, wk, Acted(wk, a));
  }

  /** Creating the row. */
  lemma RowPlays(s: State, w: WorkerId, job: JobId, o: WakeOrder, log: Log) returns (es: seq<Event>)
    requires w < |s.workers| && s.workers[w] == Processing(job, o, [], Begin)
    requires |log| == 1 && Opens(o, log) && FreshAttempt(s, log[0].id)
    ensures Play(s, es) == Some(With(s, w, Processing(job, o, log, Created(log[0].id))))
    ensures OnlyActs(es, w)
  {
    es := [] + [Act(w, CreateRow(log[0].id, log[0].row))];
    assert With(s, w, s.workers[w]) == s;
    Chain(s, [], w, s.workers[w], CreateRow(log[0].id, log[0].row));
    assert [] + [Insert(log[0].id, log[0].row)] == log;
  }

  /** A row that gets no strategy, fails to be sent, or is sent. */
  lemma AfterRowPlays(s: State, es: seq<Event>, w: WorkerId, job: JobId, o: WakeOrder, row: Log, a: Action, log: Log)
    requires w < |s.workers| && |row| == 1 && Opens(o, row)
    requires Play(s, es) == Some(With(s, w, Processing(job, o, row, Created(row[0].id))))
    requires IsKnownStrategy(row[0].row.strategy) <==> !a.UnknownStrategy?
    requires match a
             case UnknownStrategy => log == row
             case SendFails(error, now) => log == row + [FailedWrite(row[0].id, error, now)]
             case Send => log == row + [SentWrite(row[0].id)]
             case _ => false
    ensures Play(s, es + [Act(w, a)])
         == Some(With(s, w, Processing(job, o, log, if a.Send? then Woken(row[0].id) else Finished)))
  {
    var wk := Processing(job, o, row, Created(row[0].id));
    ApplyShort(s.attempts, row);
    assert View(With(s, w, wk), w) == Apply(s.attempts, row);
    assert row + [] == row;
    Chain(s, es, w, wk, a);
  }

  /** Making the row and sending its packet. */
  lemma SendPlays(s: State, w: WorkerId, job: JobId, o: WakeOrder, log: Log) returns (es: seq<Event>)
    requires w < |s.workers| && s.workers[w] == Processing(job, o, [], Begin)
    requires |log| == 2 && OpensAndSends(o, log) && FreshAttempt(s, log[0].id)
    ensures Play(s, es) == Some(With(s, w, Processing(job, o, log, Woken(log[0].id))))
    ensures OnlyActs(es, w)
  {
    es := RowPlays(s, w, job, o, log[..1]);
    AfterRowPlays(s, es, w, job, o, log[..1], Send, log);
    es := es + [Act(w, Send)];
  }

  /** Picking the latest active row. */
  lemma PickPlays(s: State, es: seq<Event>, w: WorkerId, job: JobId, o: WakeOrder, log: Log, target: AttemptId)
    requires w < |s.workers| && |log| == 2 && OpensAndSends(o, log) && o.ensureOnline
    requires Play(s, es) == Some(With(s, w, Processing(job, o, log, Woken(log[0].id))))
    requires IsLatestActive(Apply(s.attempts, log), o.machine, target)
    ensures Play(s, es + [Act(w, Pick(target))]) == Some(With(s, w, Processing(job, o, log, Picked(log[0].id, target))))
  {
    var wk := Processing(job, o, log, Woken(log[0].id));
    assert View(With(s, w, wk), w) == Apply(s.attempts, log) && log + [] == log;
    Chain(s, es, w, wk, Pick(target));
  }

  /** The first write to the picked row: its machine is gone, or polling begins. */
  lemma FirstPollWritePlays(s: State, es: seq<Event>, w: WorkerId, job: JobId, o: WakeOrder, log: Log, target: AttemptId, a: Action)
    requires w < |s.workers| && |log| == 2 && (a.MachineMissing? || a.StartPolling?)
    requires Play(s, es) == Some(With(s, w, Processing(job, o, log, Picked(log[0].id, target))))
    requires target in Apply(s.attempts, log) && Unlocked(s, w, target)
    ensures var wk := Processing(job, o, log, Picked(log[0].id, target));
            Play(s, es + [Act(w, a)]) == Some(With(s, w, Acted(wk, a)))
  {
    var wk := Processing(job, o, log, Picked(log[0].id, target));
    assert View(With(s, w, wk), w) == Apply(s.attempts, log) && Unlocked(With(s, w, wk), w, target);
    Chain(s, es, w, wk, a);
  }

  /** The action whose statement is the outcome `x`. */
  function OutcomeAction(x: Write): Action
    requires IsOutcome(x, x.id)
  {
    if x.status == Online then ComesOnline(x.finishedAt.value) else TimesOut(x.error.value, x.finishedAt.value)
  }

  lemma PickedPlays(s: State, w: WorkerId, job: JobId, o: WakeOrder, log: Log, target: AttemptId) returns (es: seq<Event>)
    requires w < |s.workers| && s.workers[w] == Processing(job, o, [], Begin)
    requires |log| == 2 && OpensAndSends(o, log) && o.ensureOnline && FreshAttempt(s, log[0].id)
    requires IsLatestActive(Apply(s.attempts, log), o.machine, target)
    ensures Play(s, es) == Some(With(s, w, Processing(job, o, log, Picked(log[0].id, target)))) && OnlyActs(es, w)
  {
    es := SendPlays(s, w, job, o, log);
    PickPlays(s, es, w, job, o, log, target);
    es := es + [Act(w, Pick(target))];
  }

  /** What follows a wake that succeeded, when the order asks for polling. */
  lemma PollPlays(s: State, w: WorkerId, job: JobId, o: WakeOrder, log: Log) returns (es: seq<Event>)
    requires w < |s.workers| && s.workers[w] == Processing(job, o, [], Begin) && CanLeave(s, w, o, log) && |log| > 2
    ensures Play(s, es) == Some(With(s, w, Processing(job, o, log, Finished))) && OnlyActs(es, w)
  {
    es := PickedPlays(s, w, job, o, log[..2], log[2].id);
    if |log| == 3 {
      GonePlays(s, es, w, job, o, log);
      es := es + [Act(w, MachineMissing(log[2].finishedAt.value))];
    } else {
      OutcomePlays(s, es, w, job, o, log);
      es := es + [Act(w, StartPolling)] + [Act(w, OutcomeAction(log[3]))];
    }
  }

  lemma GonePlays(s: State, es: seq<Event>, w: WorkerId, job: JobId, o: WakeOrder, log: Log)
    requires w < |s.workers| && IsComplete(o, log) && |log| == 3
    requires Play(s, es) == Some(With(s, w, Processing(job, o, log[..2], Picked(log[0].id, log[2].id))))
    requires log[2].id in Apply(s.attempts, log[..2]) && Unlocked(s, w, log[2].id)
    ensures Play(s, es + [Act(w, MachineMissing(log[2].finishedAt.value))])
         == Some(With(s, w, Processing(job, o, log, Finished)))
  {
    FirstPollWritePlays(s, es, w, job, o, log[..2], log[2].id, MachineMissing(log[2].finishedAt.value));
    assert log[..2] + [FailedWrite(log[2].id, MACHINE_GONE, log[2].finishedAt.value)] == log;
  }

  lemma OutcomePlays(s: State, es: seq<Event>, w: WorkerId, job: JobId, o: WakeOrder, log: Log)
    requires w < |s.workers| && IsComplete(o, log) && |log| == 4
    requires Play(s, es) == Some(With(s, w, Processing(job, o, log[..2], Picked(log[0].id, log[2].id))))
    requires log[2].id in Apply(s.attempts, log[..2]) && Unlocked(s, w, log[2].id)
    ensures Play(s, es + [Act(w, StartPolling)] + [Act(w, OutcomeAction(log[3]))])
         == Some(With(s, w, Processing(job, o, log, Finished)))
  {
    PollingBeginsPlays(s, es, w, job, o, log[..2], log[2].id);
    PollParts(o, log);
    LastWritePlays(s, es + [Act(w, StartPolling)], w, job, o, log[..3], log[0].id, log[3]);
  }

  lemma PollParts(o: WakeOrder, log: Log)
    requires IsComplete(o, log) && |log| == 4
    ensures log[..2] + [WakingWrite(log[2].id)] == log[..3] && log[..3] + [log[3]] == log
    ensures log[..2][0] == log[0] && log[3].id == log[2].id && IsOutcome(log[3], log[3].id)
  {
  }

  lemma PollingBeginsPlays(s: State, es: seq<Event>, w: WorkerId, job: JobId, o: WakeOrder, log: Log, target: AttemptId)
    requires w < |s.workers| && |log| == 2
    requires Play(s, es) == Some(With(s, w, Processing(job, o, log, Picked(log[0].id, target))))
    requires target in Apply(s.attempts, log) && Unlocked(s, w, target)
    ensures Play(s, es + [Act(w, StartPolling)])
         == Some(With(s, w, Processing(job, o, log + [WakingWrite(target)], Polling(log[0].id, target))))
  {
    FirstPollWritePlays(s, es, w, job, o, log, target, StartPolling);
  }

  lemma LastWritePlays(s: State, es: seq<Event>, w: WorkerId, job: JobId, o: WakeOrder, log: Log, own: AttemptId, x: Write)
    requires w < |s.workers| && IsOutcome(x, x.id)
    requires Play(s, es) == Some(With(s, w, Processing(job, o, log, Polling(own, x.id))))
    ensures Play(s, es + [Act(w, OutcomeAction(x))]) == Some(With(s, w, Processing(job, o, log + [x], Finished)))
  {
    Chain(s, es, w, Processing(job, o, log, Polling(own, x.id)), OutcomeAction(x));
  }

  /** Every complete transaction the tables allow is one `_process_job` can leave. */
  lemma TransactionPlays(s: State, w: WorkerId, job: JobId, o: WakeOrder, log: Log) returns (es: seq<Event>)
    requires w < |s.workers| && s.workers[w] == Processing(job, o, [], Begin) && CanLeave(s, w, o, log)
    ensures Play(s, es) == Some(With(s, w, Processing(job, o, log, Finished)))
    ensures OnlyActs(es, w)
  {
    if |log| > 2 {
      es := PollPlays(s, w, job, o, log);
    } else if log == [] {
      es := RefusalPlays(s, w, job, o);
    } else if |log| == 2 && log[1].status == Sent {
      es := SendPlays(s, w, job, o, log);
      EndPlays(s, es, w, job, o, log);
      es := es + [Act(w, NoPolling)];
    } else {
      es := FailurePlays(s, w, job, o, log);
    }
  }

  lemma RefusalPlays(s: State, w: WorkerId, job: JobId, o: WakeOrder) returns (es: seq<Event>)
    requires w < |s.workers| && s.workers[w] == Processing(job, o, [], Begin)
    ensures Play(s, es) == Some(With(s, w, Processing(job, o, [], Finished))) && OnlyActs(es, w)
  {
    es := [] + [Act(w, Refuse)];
    assert With(s, w, s.workers[w]) == s;
    Chain(s, [], w, s.workers[w], Refuse);
  }

  lemma EndPlays(s: State, es: seq<Event>, w: WorkerId, job: JobId, o: WakeOrder, log: Log)
    requires w < |s.workers| && |log| == 2 && !o.ensureOnline
    requires Play(s, es) == Some(With(s, w, Processing(job, o, log, Woken(log[0].id))))
    ensures Play(s, es + [Act(w, NoPolling)]) == Some(With(s, w, Processing(job, o, log, Finished)))
  {
    Chain(s, es, w, Processing(job, o, log, Woken(log[0].id)), NoPolling);
    assert log + [] == log;
  }

  /** A row that got no strategy, or could not be sent. */
  lemma FailurePlays(s: State, w: WorkerId, job: JobId, o: WakeOrder, log: Log) returns (es: seq<Event>)
    requires w < |s.workers| && s.workers[w] == Processing(job, o, [], Begin) && IsComplete(o, log)
    requires log != [] && FreshAttempt(s, log[0].id) && |log| <= 2 && (|log| == 2 ==> log[1].status == Failed)
    ensures Play(s, es) == Some(With(s, w, Processing(job, o, log, Finished))) && OnlyActs(es, w)
  {
    es := RowPlays(s, w, job, o, log[..1]);
    var a := if |log| == 1 then UnknownStrategy else SendFails(log[1].error.value, log[1].finishedAt.value);
    AfterRowPlays(s, es, w, job, o, log[..1], a, log);
    es := es + [Act(w, a)];
  }

  /** The state in which `w` has just claimed job `id`. */
  function AfterClaim(s: State, w: WorkerId, id: JobId, now: Time): State
    requires w < |s.workers| && id in s.jobs
  {
    With(s, w, Claimed(id, s.jobs[id].payload)).(jobs := s.jobs[id := ClaimedJob(s.jobs[id], now)])
  }

  lemma ClaimPlays(s: State, w: WorkerId, id: JobId, now: Time)
    requires w < |s.workers| && s.workers[w].Idle? && IsOldestFree(s.jobs, LockedJobs(s), id)
    ensures Play(s, [Lock(w, id), ClaimCommit(w, now)]) == Some(AfterClaim(s, w, id, now))
  {
    PlayOne(s, Lock(w, id));
    SilentStep(s, Lock(w, id));
    var s1 := Do(s, Lock(w, id));
    assert s1 == With(s, w, Locking(id));
    PlayMore(s, [Lock(w, id)], ClaimCommit(w, now));
    SilentStep(s1, ClaimCommit(w, now));
    assert [Lock(w, id)] + [ClaimCommit(w, now)] == [Lock(w, id), ClaimCommit(w, now)];
    assert s.workers[w := Locking(id)][w := Claimed(id, s.jobs[id].payload)] == s.workers[w := Claimed(id, s.jobs[id].payload)];
  }

  /** A claim whose commit fails leaves no trace. */
  lemma UnclaimedPlays(s: State, w: WorkerId, id: JobId)
    requires w < |s.workers| && s.workers[w].Idle? && IsOldestFree(s.jobs, LockedJobs(s), id)
    ensures Play(s, [Lock(w, id)] + [ClaimAbort(w)]) == Some(s)
  {
    PlayOne(s, Lock(w, id));
    SilentStep(s, Lock(w, id));
    var s1 := With(s, w, Locking(id));
    PlayMore(s, [Lock(w, id)], ClaimAbort(w));
    SilentStep(s1, ClaimAbort(w));
    WithTwice(s, w, Locking(id), Idle);
    assert With(s, w, Idle) == s;
  }

  function Started(id: JobId, payload: Payload): Worker {
    var o := Decode(payload);
    if o.Success? then Processing(id, o.value, [], Begin) else RolledBack(id)
  }

  /** The state in which `w` has just entered `_process_job`; a payload it cannot decode has raised at once. */
  function AfterStart(s: State, w: WorkerId, id: JobId, now: Time): State
    requires w < |s.workers| && id in s.jobs
  {
    With(s, w, Started(id, s.jobs[id].payload)).(jobs := s.jobs[id := ClaimedJob(s.jobs[id], now)], starts := s.starts + [id])
  }

  function Opening(w: WorkerId, id: JobId, now: Time): seq<Event> {
    [Lock(w, id), ClaimCommit(w, now)] + [Start(w)]
  }

  lemma StartPlays(s: State, w: WorkerId, id: JobId, payload: Payload)
    requires w < |s.workers| && s.workers[w] == Claimed(id, payload)
    ensures Play(s, [Start(w)]) == Some(With(s, w, Started(id, payload)).(starts := s.starts + [id]))
  {
    PlayOne(s, Start(w));
    SilentStep(s, Start(w));
    StartIsStarted(s, w, id, payload);
  }

  lemma StartIsStarted(s: State, w: WorkerId, id: JobId, payload: Payload)
    requires w < |s.workers| && s.workers[w] == Claimed(id, payload)
    ensures NextWorker(s, Start(w)) == Started(id, payload)
  {
  }

  lemma OpeningPlays(s: State, w: WorkerId, id: JobId, now: Time)
    requires w < |s.workers| && s.workers[w].Idle? && IsOldestFree(s.jobs, LockedJobs(s), id)
    ensures Play(s, Opening(w, id, now)) == Some(AfterStart(s, w, id, now))
  {
    ClaimPlays(s, w, id, now);
    var s1, s2 := AfterClaim(s, w, id, now), AfterStart(s, w, id, now);
    StartPlays(s1, w, id, s.jobs[id].payload);
    WithTwice(s, w, s1.workers[w], s2.workers[w]);
    PlayBoth(s, [Lock(w, id), ClaimCommit(w, now)], s1, [Start(w)], s2);
  }

  lemma OpeningIsMine(w: WorkerId, id: JobId, now: Time)
    ensures OnlyBy(Opening(w, id, now), w)
  {
  }

  /** The steps after `_process_job` has returned. */
  function Closing(w: WorkerId, c: Commits, error: string): seq<Event> {
    if c.doneFails then [Throw(w)] + [HandlerStep(w, c, error)]
    else if c.sessionFails then [MarkDone(w)] + ([Throw(w)] + [HandlerStep(w, c, error)])
    else [MarkDone(w)] + [Commit(w)]
  }

  /** The last step of the exception handler. */
  function HandlerStep(w: WorkerId, c: Commits, error: string): Event {
    if c.errorFails then GiveUp(w) else MarkError(w, error)
  }

  /** The tables after a turn with job `id`, whose row is `claimed` while it is served. */
  function Settled(s: State, w: WorkerId, id: JobId, log: Log, processed: bool, c: Commits, error: string): State
    requires w < |s.workers| && id in s.jobs
  {
    var after := With(s, w, Idle).(jobs := s.jobs[id := SettledJob(s.jobs[id], processed, c, error)]);
    if Publishes(processed, c)
    then after.(attempts := Apply(s.attempts, log), ledger := s.ledger + Tagged(ByJob(id), log))
    else after
  }

  /** The tables after the exception handler. */
  function Raised(s: State, w: WorkerId, id: JobId, c: Commits, error: string): State
    requires w < |s.workers| && id in s.jobs
  {
    With(s, w, Idle).(jobs := if c.errorFails then s.jobs
                              else s.jobs[id := s.jobs[id].(status := JobStatus.Error, payload := ErrorPayload(error))])
  }

  lemma HandlerPlays(s: State, w: WorkerId, id: JobId, c: Commits, error: string)
    requires w < |s.workers| && s.workers[w] == RolledBack(id) && id in s.jobs
    ensures Play(s, [HandlerStep(w, c, error)])
         == Some(Raised(s, w, id, c, error))
  {
    PlayOne(s, HandlerStep(w, c, error));
    SilentStep(s, HandlerStep(w, c, error));
  }

  /** An exception, whatever the worker was at: rollback, then the handler. */
  lemma RaisingPlays(s: State, w: WorkerId, id: JobId, c: Commits, error: string)
    requires w < |s.workers| && (s.workers[w].Processing? || s.workers[w].Committing?) && s.workers[w].job == id && id in s.jobs
    ensures Play(s, [Throw(w)] + [HandlerStep(w, c, error)])
         == Some(Raised(s, w, id, c, error))
  {
    PlayOne(s, Throw(w));
    SilentStep(s, Throw(w));
    assert Do(s, Throw(w)) == With(s, w, RolledBack(id));
    HandlerPlays(With(s, w, RolledBack(id)), w, id, c, error);
    PlayConcat(s, [Throw(w)], [HandlerStep(w, c, error)]);
    WithTwice(s, w, RolledBack(id), Idle);
  }

  lemma MarkDonePlays(s: State, w: WorkerId, id: JobId, o: WakeOrder, log: Log)
    requires w < |s.workers| && s.workers[w] == Processing(id, o, log, Finished) && id in s.jobs
    ensures Play(s, [MarkDone(w)])
         == Some(Marked(s, w, id, o, log))
  {
    PlayOne(s, MarkDone(w));
    SilentStep(s, MarkDone(w));
  }

  function Marked(s: State, w: WorkerId, id: JobId, o: WakeOrder, log: Log): State
    requires w < |s.workers| && id in s.jobs
  {
    With(s, w, Committing(id, o, log)).(jobs := s.jobs[id := s.jobs[id].(status := Done)])
  }

  lemma CommitPlays(s: State, w: WorkerId, id: JobId, o: WakeOrder, log: Log)
    requires w < |s.workers| && s.workers[w] == Committing(id, o, log)
    ensures Play(s, [Commit(w)])
         == Some(With(s, w, Idle).(attempts := Apply(s.attempts, log), ledger := s.ledger + Tagged(ByJob(id), log)))
  {
    PlayOne(s, Commit(w));
  }

  lemma CompletingPlays(s: State, w: WorkerId, id: JobId, o: WakeOrder, log: Log, c: Commits, error: string)
    requires w < |s.workers| && s.workers[w] == Processing(id, o, log, Finished) && id in s.jobs && Publishes(true, c)
    ensures Play(s, [MarkDone(w)] + [Commit(w)]) == Some(Settled(s, w, id, log, true, c, error))
  {
    MarkDonePlays(s, w, id, o, log);
    CommitPlays(Marked(s, w, id, o, log), w, id, o, log);
    PlayConcat(s, [MarkDone(w)], [Commit(w)]);
    WithTwice(s, w, Committing(id, o, log), Idle);
  }

  lemma LateRaisingPlays(s: State, w: WorkerId, id: JobId, o: WakeOrder, log: Log, c: Commits, error: string)
    requires w < |s.workers| && s.workers[w] == Processing(id, o, log, Finished) && id in s.jobs
    requires !c.doneFails && c.sessionFails
    ensures Play(s, [MarkDone(w)] + ([Throw(w)] + [HandlerStep(w, c, error)])) == Some(Settled(s, w, id, log, true, c, error))
  {
    MarkDonePlays(s, w, id, o, log);
    var s1 := Marked(s, w, id, o, log);
    RaisingPlays(s1, w, id, c, error);
    RaisedAfterMark(s, w, id, o, log, c, error);
    PlayBoth(s, [MarkDone(w)], s1, [Throw(w)] + [HandlerStep(w, c, error)], Raised(s1, w, id, c, error));
  }

  lemma RaisedAfterMark(s: State, w: WorkerId, id: JobId, o: WakeOrder, log: Log, c: Commits, error: string)
    requires w < |s.workers| && id in s.jobs && !c.doneFails && c.sessionFails
    ensures Raised(Marked(s, w, id, o, log), w, id, c, error) == Settled(s, w, id, log, true, c, error)
  {
    var settled := SettledJob(s.jobs[id], true, c, error);
    assert s.jobs[id := s.jobs[id].(status := Done)][id := settled] == s.jobs[id := settled];
    WithTwice(s, w, Committing(id, o, log), Idle);
  }

  lemma ClosingPlays(s: State, w: WorkerId, id: JobId, o: WakeOrder, log: Log, c: Commits, error: string)
    requires w < |s.workers| && s.workers[w] == Processing(id, o, log, Finished) && id in s.jobs
    ensures Play(s, Closing(w, c, error)) == Some(Settled(s, w, id, log, true, c, error))
  {
    if c.doneFails {
      RaisingPlays(s, w, id, c, error);
      assert s.jobs[id := s.jobs[id]] == s.jobs;
    } else if c.sessionFails {
      LateRaisingPlays(s, w, id, o, log, c, error);
    } else {
      CompletingPlays(s, w, id, o, log, c, error);
    }
  }

  /** What the worker was at does not show in the tables it leaves. */
  lemma SettledWith(s: State, w: WorkerId, wk: Worker, id: JobId, log: Log, processed: bool, c: Commits, error: string)
    requires w < |s.workers| && id in s.jobs
    ensures Settled(With(s, w, wk), w, id, log, processed, c, error) == Settled(s, w, id, log, processed, c, error)
  {
    WithTwice(s, w, wk, Idle);
  }

  lemma ClosingFrom(s: State, w: WorkerId, id: JobId, o: WakeOrder, log: Log, c: Commits, error: string)
    requires w < |s.workers| && id in s.jobs
    ensures Play(With(s, w, Processing(id, o, log, Finished)), Closing(w, c, error))
         == Some(Settled(s, w, id, log, true, c, error))
  {
    ClosingPlays(With(s, w, Processing(id, o, log, Finished)), w, id, o, log, c, error);
    SettledWith(s, w, Processing(id, o, log, Finished), id, log, true, c, error);
  }

  lemma ProcessedPlays(s: State, w: WorkerId, id: JobId, o: WakeOrder, log: Log, c: Commits, error: string)
    returns (es: seq<Event>)
    requires w < |s.workers| && s.workers[w] == Processing(id, o, [], Begin) && id in s.jobs && CanLeave(s, w, o, log)
    ensures Play(s, es) == Some(Settled(s, w, id, log, true, c, error)) && OnlyBy(es, w)
  {
    var acts := TransactionPlays(s, w, id, o, log);
    ClosingFrom(s, w, id, o, log, c, error);
    PlayBoth(s, acts, With(s, w, Processing(id, o, log, Finished)), Closing(w, c, error), Settled(s, w, id, log, true, c, error));
    es := acts + Closing(w, c, error);
    ActsAreMine(acts, w);
    ClosingIsMine(w, c, error);
    OnlyByConcat(acts, Closing(w, c, error), w);
  }

  lemma ClosingIsMine(w: WorkerId, c: Commits, error: string)
    ensures OnlyBy(Closing(w, c, error), w)
  {
  }

  lemma ActsAreMine(acts: seq<Event>, w: WorkerId)
    requires OnlyActs(acts, w)
    ensures OnlyBy(acts, w)
  {
  }

  lemma RaisedPlays(s: State, w: WorkerId, id: JobId, c: Commits, error: string) returns (es: seq<Event>)
    requires w < |s.workers| && id in s.jobs
    requires s.workers[w] == RolledBack(id) || (s.workers[w].Processing? && s.workers[w].job == id)
    ensures Play(s, es) == Some(Settled(s, w, id, [], false, c, error))
    ensures OnlyBy(es, w)
  {
    if s.workers[w].RolledBack? {
      HandlerPlays(s, w, id, c, error);
      es := [HandlerStep(w, c, error)];
    } else {
      RaisingPlays(s, w, id, c, error);
      es := [Throw(w)] + [HandlerStep(w, c, error)];
    }
    assert s.jobs[id := s.jobs[id]] == s.jobs;
  }

  /** The tables a turn leaves behind: those before it, but for the row of its job and the transaction it publishes. */
  predicate IsAfterTurn(s: State, s': State, id: JobId, log: Log, now: Time, processed: bool, c: Commits, error: string)
    requires id in s.jobs
  {
    && s'.workers == s.workers
    && s'.jobs == s.jobs[id := SettledJob(ClaimedJob(s.jobs[id], now), processed, c, error)]
    && s'.attempts == (if Publishes(processed, c) then Apply(s.attempts, log) else s.attempts)
    && s'.ledger == (if Publishes(processed, c) then s.ledger + Tagged(ByJob(id), log) else s.ledger)
  }

  lemma SettlesTurn(s: State, w: WorkerId, id: JobId, log: Log, now: Time, processed: bool, c: Commits, error: string)
    requires w < |s.workers| && s.workers[w].Idle? && id in s.jobs
    ensures IsAfterTurn(s, Settled(AfterStart(s, w, id, now), w, id, log, processed, c, error), id, log, now, processed, c, error)
  {
    var wk := AfterStart(s, w, id, now).workers[w];
    assert s.workers[w := wk][w := Idle] == s.workers;
  }

  lemma StartKeepsCanLeave(s: State, w: WorkerId, id: JobId, now: Time, o: WakeOrder, log: Log)
    requires w < |s.workers| && s.workers[w].Idle? && id in s.jobs && CanLeave(s, w, o, log)
    ensures CanLeave(AfterStart(s, w, id, now), w, o, log)
  {
  }

  lemma RestPlays(s: State, w: WorkerId, id: JobId, log: Log, now: Time, processed: bool, c: Commits, error: string)
    returns (es: seq<Event>)
    requires w < |s.workers| && s.workers[w].Idle? && id in s.jobs
    requires processed ==> Decode(s.jobs[id].payload).Success? && CanLeave(s, w, Decode(s.jobs[id].payload).value, log)
    ensures Play(AfterStart(s, w, id, now), es) == Some(Settled(AfterStart(s, w, id, now), w, id, log, processed, c, error))
    ensures OnlyBy(es, w)
  {
    var s1 := AfterStart(s, w, id, now);
    if processed {
      StartKeepsCanLeave(s, w, id, now, Decode(s.jobs[id].payload).value, log);
      es := ProcessedPlays(s1, w, id, Decode(s.jobs[id].payload).value, log, c, error);
    } else {
      es := RaisedPlays(s1, w, id, c, error);
    }
  }

  lemma OnlyByConcat(a: seq<Event>, b: seq<Event>, w: WorkerId)
    requires OnlyBy(a, w) && OnlyBy(b, w)
    ensures OnlyBy(a + b, w)
  {
  }

  lemma WholeTurnPlays(s: State, w: WorkerId, id: JobId, log: Log, now: Time, processed: bool, c: Commits, error: string)
    returns (es: seq<Event>)
    requires w < |s.workers| && s.workers[w].Idle? && IsOldestFree(s.jobs, LockedJobs(s), id)
    requires processed ==> Decode(s.jobs[id].payload).Success? && CanLeave(s, w, Decode(s.jobs[id].payload).value, log)
    ensures Play(s, es) == Some(Settled(AfterStart(s, w, id, now), w, id, log, processed, c, error)) && OnlyBy(es, w)
  {
    OpeningPlays(s, w, id, now);
    var s1 := AfterStart(s, w, id, now);
    var rest := RestPlays(s, w, id, log, now, processed, c, error);
    PlayBoth(s, Opening(w, id, now), s1, rest, Settled(s1, w, id, log, processed, c, error));
    es := Opening(w, id, now) + rest;
    OpeningIsMine(w, id, now);
    OnlyByConcat(Opening(w, id, now), rest, w);
  }

  /** Every way the method ServeOne can leave the tables after it has claimed a job, when nobody else has moved, is a run of
      the worker alone: Lock, ClaimCommit, Start; if the job was processed, the actions that write its complete
      transaction, MarkDone and Commit; and where a commit fails or processing raises, Throw and MarkError or GiveUp. */
  lemma TurnPlays(s: State, w: WorkerId, id: JobId, log: Log, now: Time, processed: bool, c: Commits, error: string)
    returns (es: seq<Event>)
    requires w < |s.workers| && s.workers[w].Idle? && IsOldestFree(s.jobs, LockedJobs(s), id)
    requires processed ==> Decode(s.jobs[id].payload).Success? && CanLeave(s, w, Decode(s.jobs[id].payload).value, log)
    ensures Play(s, es).Some? && IsAfterTurn(s, Play(s, es).value, id, log, now, processed, c, error)
    ensures OnlyBy(es, w)
  {
    es := WholeTurnPlays(s, w, id, log, now, processed, c, error);
    SettlesTurn(s, w, id, log, now, processed, c, error);
  }

  /** So it continues every run that has come that far. */
  lemma TurnContinuesRun(n: nat, r: Run, w: WorkerId, id: JobId, log: Log, now: Time, processed: bool, c: Commits, error: string)
    returns (r': Run)
    requires IsRun(n, r) && w < |Last(r).workers| && Last(r).workers[w].Idle?
    requires IsOldestFree(Last(r).jobs, LockedJobs(Last(r)), id)
    requires processed ==>
               && Decode(Last(r).jobs[id].payload).Success?
               && CanLeave(Last(r), w, Decode(Last(r).jobs[id].payload).value, log)
    ensures IsRun(n, r') && r.states <= r'.states && r.events <= r'.events && OnlyBy(r'.events[|r.events|..], w)
    ensures IsAfterTurn(Last(r), Last(r'), id, log, now, processed, c, error)
  {
    var es := TurnPlays(Last(r), w, id, log, now, processed, c, error);
    r' := ScriptContinuesRun(n, r, es);
    assert r'.events[|r.events|..] == es;
  }

  // ---- What else can happen at any time ----

  /** A worker can die wherever it stands; what others see is as before. */
  lemma CrashPlays(s: State, w: WorkerId)
    requires w < |s.workers|
    ensures Play(s, [Crash(w)]) == Some(With(s, w, Idle))
  {
    PlayOne(s, Crash(w));
    SilentStep(s, Crash(w));
  }

  /** A turn can end between the claim and the start of its job; the job then stays running with nobody holding it. */
  lemma UnstartedPlays(s: State, w: WorkerId, id: JobId, now: Time)
    requires w < |s.workers| && s.workers[w].Idle? && IsOldestFree(s.jobs, LockedJobs(s), id)
    ensures Play(s, [Lock(w, id), ClaimCommit(w, now)] + [GiveUp(w)])
         == Some(s.(jobs := s.jobs[id := ClaimedJob(s.jobs[id], now)]))
  {
    ClaimPlays(s, w, id, now);
    var s1 := AfterClaim(s, w, id, now);
    PlayMore(s, [Lock(w, id), ClaimCommit(w, now)], GiveUp(w));
    SilentStep(s1, GiveUp(w));
    assert s1.workers[w := Idle] == s.workers;
  }

  /** The database can abort the transaction during the wake, before or after the row was made; `_process_job` swallows the
      exception, and there is nothing left to commit. */
  lemma BrokenWakePlays(s: State, w: WorkerId)
    requires w < |s.workers| && s.workers[w].Processing? && (s.workers[w].phase.Begin? || s.workers[w].phase.Created?)
    ensures Play(s, [Act(w, WakeDbError)]) == Some(With(s, w, Processing(s.workers[w].job, s.workers[w].order, [], Finished)))
  {
    PlayOne(s, Act(w, WakeDbError));
    ActIsLocal(s, w, WakeDbError);
  }

  /** POST /wake, its two commits one after the other. */
  lemma PostPlays(s: State, row: AttemptId, attempt: Attempt, q: WakeRequest, id: JobId, createdAt: Time)
    requires FreshAttempt(s, row) && IsPosted(row, attempt, q) && id !in s.jobs
    ensures var es := [PostWake(row, attempt, q)] + [Enqueue(id, row, createdAt)];
            && Play(s, es).Some?
            && var s' := Play(s, es).value;
               && s'.attempts == s.attempts[row := attempt] && s'.workers == s.workers
               && s'.jobs == s.jobs[id := Job(row, Queued, Encode(q), createdAt, None)]
  {
    PlayOne(s, PostWake(row, attempt, q));
    var s1 := Do(s, PostWake(row, attempt, q));
    ApplyShort(s.attempts, [Insert(row, attempt)]);
    PlayMore(s, [PostWake(row, attempt, q)], Enqueue(id, row, createdAt));
    SilentStep(s1, Enqueue(id, row, createdAt));
  }
}
