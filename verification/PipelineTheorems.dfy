/** Safety of the wake pipeline over whole runs: any number of workers, any interleaving with the API, a crash of any
    worker at any point. */
module PipelineTheorems {
  import opened Wrappers
  import opened AttemptStatuses
  import opened AttemptTable
  import opened Payloads
  import opened Pipeline
  import opened JobInvariants
  import opened AttemptInvariants
  import Queue = JobQueue

  // ---- Publication order ----

  /** The ledger with one job's writes struck out. */
  function Without(ledger: seq<Entry>, j: JobId): seq<Entry> {
    if ledger == [] then []
    else
      var front, last := Without(ledger[..|ledger| - 1], j), ledger[|ledger| - 1];
      if last.source == ByJob(j) then front else front + [last]
  }

  lemma {:induction false} WithoutNothing(ledger: seq<Entry>, j: JobId)
    requires forall x :: x in ledger ==> x.source != ByJob(j)
    ensures Without(ledger, j) == ledger
  {
    if ledger != [] {
      var front, last := ledger[..|ledger| - 1], ledger[|ledger| - 1];
      assert last in ledger && forall x :: x in front ==> x in ledger;
      WithoutNothing(front, j);
      assert Without(ledger, j) == front + [last];
    }
  }

  /** A committed attempt write of a job means the job is done. A job in error, queued or running has published
      nothing: the attempts are what the other transactions alone would have made them, as if the job never ran. */
  lemma PublicationOrder(n: nat, r: Run, i: nat, j: JobId)
    requires IsRun(n, r) && i <= |r.events| && j in r.states[i].jobs
    ensures var s := r.states[i];
            && ((exists x :: x in s.ledger && x.source == ByJob(j)) ==> s.jobs[j].status == Done)
            && (s.jobs[j].status != Done ==> s.attempts == Apply(map[], Writes(Without(s.ledger, j))))
  {
    InvariantsAt(n, r, i);
    var s := r.states[i];
    if s.jobs[j].status != Done {
      assert forall x :: x in s.ledger ==> x.source != ByJob(j);
      WithoutNothing(s.ledger, j);
    }
  }

  /** From a commit on, the job it published is done and stays so, and no worker holds it again. */
  lemma {:induction false} SettledFrom(n: nat, r: Run, i: nat, k: nat)
    requires IsRun(n, r) && i < k <= |r.events| && r.events[i].Commit?
    ensures JobOfStep(n, r, i).Some? && IsSettled(r.states[k], JobOfStep(n, r, i).value)
    decreases k
  {
    assert Follows(r, i) && Follows(r, k - 1);
    InvariantsAt(n, r, k - 1);
    if k == i + 1 {
      CommitSettles(r.states[i], r.events[i]);
    } else {
      SettledFrom(n, r, i, k - 1);
      StepKeepsSettled(r.states[k - 1], r.events[k - 1], JobOfStep(n, r, i).value);
    }
  }

  /** A job commits attempt writes at most once. */
  lemma PublishesOnce(n: nat, r: Run, i: nat, k: nat)
    requires IsRun(n, r) && i < k < |r.events| && r.events[i].Commit? && r.events[k].Commit?
    ensures JobOfStep(n, r, i).Some? && JobOfStep(n, r, k).Some? && JobOfStep(n, r, i) != JobOfStep(n, r, k)
  {
    SettledFrom(n, r, i, k);
    assert Follows(r, k);
  }

  /** The attempt writes a job has committed. */
  function OfJob(ledger: seq<Entry>, j: JobId): Log {
    if ledger == [] then []
    else
      var front, last := OfJob(ledger[..|ledger| - 1], j), ledger[|ledger| - 1];
      if last.source == ByJob(j) then front + [last.write] else front
  }

  lemma OfJobOne(ledger: seq<Entry>, x: Entry, j: JobId)
    ensures OfJob(ledger + [x], j) == if x.source == ByJob(j) then OfJob(ledger, j) + [x.write] else OfJob(ledger, j)
  {
    assert (ledger + [x])[..|ledger + [x]| - 1] == ledger;
  }

  lemma TaggedFront(ledger: seq<Entry>, source: Source, log: Log)
    requires log != []
    ensures ledger + Tagged(source, log) == ledger + Tagged(source, log[..|log| - 1]) + [Entry(source, log[|log| - 1])]
  {
  }

  lemma {:induction false} OfJobAppend(ledger: seq<Entry>, source: Source, log: Log, j: JobId)
    ensures OfJob(ledger + Tagged(source, log), j) == if source == ByJob(j) then OfJob(ledger, j) + log else OfJob(ledger, j)
    decreases |log|
  {
    if log == [] {
      assert ledger + Tagged(source, log) == ledger;
    } else {
      var front := log[..|log| - 1];
      TaggedFront(ledger, source, log);
      OfJobOne(ledger + Tagged(source, front), Entry(source, log[|log| - 1]), j);
      OfJobAppend(ledger, source, front, j);
      assert front + [log[|log| - 1]] == log;
    }
  }

  lemma {:induction false} OfJobNothing(ledger: seq<Entry>, j: JobId)
    requires forall x :: x in ledger ==> x.source != ByJob(j)
    ensures OfJob(ledger, j) == []
  {
    if ledger != [] {
      assert ledger[|ledger| - 1] in ledger;
      assert forall x :: x in ledger[..|ledger| - 1] ==> x in ledger;
      OfJobNothing(ledger[..|ledger| - 1], j);
    }
  }

  /** What the worker reads back from the payload of a request. */
  function OrderOf(q: WakeRequest): (o: WakeOrder)
    ensures Decode(Encode(q)) == Success(o)
  {
    DecodeEncode(q);
    Decode(Encode(q)).value
  }

  /** The writes of job `j` so far are none, or one whole transaction for its request. */
  predicate OneTransaction(s: State, j: JobId) {
    j in s.requests && IsComplete(OrderOf(s.requests[j]), OfJob(s.ledger, j))
  }

  lemma CommitPublishesOneTransaction(s: State, e: Event)
    requires InPlace(s, e) && e.Commit? && LedgerOk(s)
    requires HolderOk(s, s.workers[e.w]) && WorkerShaped(s.workers[e.w])
    ensures OneTransaction(Do(s, e), s.workers[e.w].job)
  {
    var wk := s.workers[e.w];
    assert forall x :: x in s.ledger ==> x.source != ByJob(wk.job);
    OfJobNothing(s.ledger, wk.job);
    OfJobAppend(s.ledger, ByJob(wk.job), wk.log, wk.job);
    assert [] + wk.log == wk.log;
  }

  lemma CommitAt(n: nat, r: Run, i: nat)
    requires IsRun(n, r) && i < |r.events| && r.events[i].Commit?
    ensures JobOfStep(n, r, i).Some? && OneTransaction(r.states[i + 1], JobOfStep(n, r, i).value)
  {
    InvariantsAt(n, r, i);
    assert Follows(r, i);
    var s, e := r.states[i], r.events[i];
    assert HolderOk(s, s.workers[e.w]) && WorkerShaped(s.workers[e.w]);
    CommitPublishesOneTransaction(s, e);
  }

  /** Only a worker's commit publishes anything for a job. */
  lemma OtherStepsPublishNothing(s: State, e: Event, j: JobId)
    requires InPlace(s, e) && (e.Commit? ==> s.workers[e.w].job != j)
    ensures OfJob(Do(s, e).ledger, j) == OfJob(s.ledger, j)
  {
    OfJobAppend(s.ledger, Publisher(s, e), Published(s, e), j);
  }

  /** A job that is just being enqueued has published nothing. */
  lemma NewJobHasNoTransaction(s: State, e: Event, j: JobId)
    requires Enabled(s, e) && JobInv(s) && AttemptInv(s) && j !in s.jobs && j in Do(s, e).jobs
    ensures OneTransaction(Do(s, e), j)
  {
    assert e.Enqueue?;
    assert forall x :: x in s.ledger ==> x.source != ByJob(j);
    OfJobNothing(s.ledger, j);
    OtherStepsPublishNothing(s, e, j);
  }

  lemma StepKeepsOneTransaction(n: nat, r: Run, i: nat, j: JobId)
    requires IsRun(n, r) && i < |r.events| && OneTransaction(r.states[i], j)
    ensures OneTransaction(r.states[i + 1], j)
  {
    if r.events[i].Commit? && JobOfStep(n, r, i) == Some(j) {
      CommitAt(n, r, i);
    } else {
      InvariantsAt(n, r, i);
      assert Follows(r, i);
      OtherStepsPublishNothing(r.states[i], r.events[i], j);
    }
  }

  /** All or nothing: in every state of every run, what a job has committed is either nothing or one whole transaction
      of `_process_job` for the request it was enqueued with. */
  lemma {:induction false} JobPublishesOneTransaction(n: nat, r: Run, i: nat, j: JobId)
    requires IsRun(n, r) && i <= |r.events| && j in r.states[i].jobs
    ensures OneTransaction(r.states[i], j)
  {
    if i > 0 {
      if j in r.states[i - 1].jobs {
        JobPublishesOneTransaction(n, r, i - 1, j);
        StepKeepsOneTransaction(n, r, i - 1, j);
      } else {
        InvariantsAt(n, r, i - 1);
        assert Follows(r, i - 1);
        NewJobHasNoTransaction(r.states[i - 1], r.events[i - 1], j);
      }
    }
  }

  // ---- Done, and what became of the effects ----

  /** Step `i` is the commit of the session that served job `j`. */
  predicate CommitsAt(r: Run, i: nat, j: JobId)
    requires i < |r.events| && i < |r.states|
  {
    var s, e := r.states[i], r.events[i];
    e.Commit? && e.w < |s.workers| && s.workers[e.w].Committing? && s.workers[e.w].job == j
  }

  /** The job is past running, and a transaction waiting to be committed for it can only be `log`. */
  predicate AwaitsOnly(s: State, j: JobId, log: Log) {
    && j in s.jobs && JobRank(s.jobs[j].status) >= 2
    && forall v :: 0 <= v < |s.workers| && s.workers[v].Committing? && s.workers[v].job == j ==> s.workers[v].log == log
  }

  lemma StepKeepsAwaiting(s: State, e: Event, j: JobId, log: Log)
    requires InPlace(s, e) && JobGuard(s, e) && JobInv(s) && AwaitsOnly(s, j, log)
    ensures AwaitsOnly(Do(s, e), j, log)
  {
    StepClimbs(s, e, j);
    if e.MarkDone? {
      assert HolderOk(s, s.workers[e.w]);
    }
    assert !e.MarkDone? && Actor(e).Some? ==> !NextWorker(s, e).Committing?;
  }

  lemma MarkDoneAwaits(s: State, e: Event)
    requires InPlace(s, e) && HoldersOk(s) && e.MarkDone?
    ensures var wk := s.workers[e.w]; AwaitsOnly(Do(s, e), wk.job, wk.log)
  {
    assert HolderOk(s, s.workers[e.w]);
    forall v | 0 <= v < |s.workers| && s.workers[v].Committing?
      ensures s.workers[v].job != s.workers[e.w].job
    {
      assert HolderOk(s, s.workers[v]);
    }
  }

  lemma RunningHasNoEffects(s: State, e: Event)
    requires InPlace(s, e) && e.MarkDone? && HolderOk(s, s.workers[e.w]) && LedgerOk(s)
    ensures OfJob(Do(s, e).ledger, s.workers[e.w].job) == []
  {
    var j := s.workers[e.w].job;
    assert forall x :: x in s.ledger ==> x.source != ByJob(j);
    OfJobNothing(s.ledger, j);
    OtherStepsPublishNothing(s, e, j);
  }

  lemma {:induction false} AwaitsFrom(n: nat, r: Run, i: nat, k: nat)
    requires IsRun(n, r) && i < k <= |r.events| && r.events[i].MarkDone?
    ensures JobOfStep(n, r, i).Some? && r.states[i].workers[r.events[i].w].Processing?
    ensures AwaitsOnly(r.states[k], JobOfStep(n, r, i).value, r.states[i].workers[r.events[i].w].log)
    decreases k
  {
    InvariantsAt(n, r, k - 1);
    assert Follows(r, i) && Follows(r, k - 1);
    if k == i + 1 {
      MarkDoneAwaits(r.states[i], r.events[i]);
    } else {
      AwaitsFrom(n, r, i, k - 1);
      StepKeepsAwaiting(r.states[k - 1], r.events[k - 1], JobOfStep(n, r, i).value, r.states[i].workers[r.events[i].w].log);
    }
  }

  lemma StepAddsEffects(n: nat, r: Run, k: nat, j: JobId, log: Log)
    requires IsRun(n, r) && k < |r.events| && AwaitsOnly(r.states[k], j, log)
    ensures CommitsAt(r, k, j) && OfJob(r.states[k].ledger, j) == [] ==> OfJob(r.states[k + 1].ledger, j) == log
    ensures !CommitsAt(r, k, j) ==> OfJob(r.states[k + 1].ledger, j) == OfJob(r.states[k].ledger, j)
  {
    assert Follows(r, k);
    var s, e := r.states[k], r.events[k];
    if e.Commit? && s.workers[e.w].job == j {
      OfJobAppend(s.ledger, ByJob(j), s.workers[e.w].log, j);
      assert [] + log == log;
    } else {
      OtherStepsPublishNothing(s, e, j);
    }
  }

  /** Some step from `b` on and before `k` is the commit of the session that served the job. */
  predicate CommitsIn(r: Run, b: nat, k: nat, j: JobId)
    requires k <= |r.events| <= |r.states|
  {
    b < k && (CommitsAt(r, k - 1, j) || CommitsIn(r, b, k - 1, j))
  }

  lemma {:induction false} NotCommittedBefore(n: nat, r: Run, b: nat, m: nat, k: nat, j: JobId)
    requires IsRun(n, r) && m <= k < |r.events| && CommitsAt(r, k, j)
    ensures !CommitsIn(r, b, m, j)
    decreases m
  {
    if b < m {
      NotCommittedBefore(n, r, b, m - 1, k, j);
      if CommitsAt(r, m - 1, j) {
        PublishesOnce(n, r, m - 1, k);
      }
    }
  }

  /** The job has all of its effects if its session's commit lies between the points `b` and `k`, and none otherwise. */
  predicate EffectsMatch(r: Run, b: nat, k: nat, j: JobId, log: Log)
    requires k <= |r.events| < |r.states|
  {
    && (CommitsIn(r, b, k, j) ==> OfJob(r.states[k].ledger, j) == log)
    && (!CommitsIn(r, b, k, j) ==> OfJob(r.states[k].ledger, j) == [])
  }

  lemma StepKeepsMatch(n: nat, r: Run, b: nat, k: nat, j: JobId, log: Log)
    requires IsRun(n, r) && b <= k < |r.events| && AwaitsOnly(r.states[k], j, log) && EffectsMatch(r, b, k, j, log)
    ensures EffectsMatch(r, b, k + 1, j, log)
  {
    StepAddsEffects(n, r, k, j, log);
    if CommitsAt(r, k, j) {
      NotCommittedBefore(n, r, b, k, k, j);
    }
  }

  lemma MarkedJobHasNoEffects(n: nat, r: Run, i: nat, log: Log)
    requires IsRun(n, r) && i < |r.events| && r.events[i].MarkDone? && JobOfStep(n, r, i).Some?
    ensures EffectsMatch(r, i + 1, i + 1, JobOfStep(n, r, i).value, log)
  {
    InvariantsAt(n, r, i);
    assert Follows(r, i);
    assert HolderOk(r.states[i], r.states[i].workers[r.events[i].w]);
    RunningHasNoEffects(r.states[i], r.events[i]);
  }

  lemma MarkedJobIsHeld(n: nat, r: Run, i: nat)
    requires IsRun(n, r) && i < |r.events| && r.events[i].MarkDone?
    ensures JobOfStep(n, r, i).Some? && r.states[i].workers[r.events[i].w].Processing?
  {
    assert Follows(r, i);
  }

  /** `mark_done` commits before the job's own session does. From then on the job has its effects, all of them, if and
      only if that session's commit has gone through; a crash or a failed commit in between leaves none. */
  lemma {:induction false} EffectsIffCommitted(n: nat, r: Run, i: nat, k: nat)
    requires IsRun(n, r) && i < k <= |r.events| && r.events[i].MarkDone?
    ensures JobOfStep(n, r, i).Some? && r.states[i].workers[r.events[i].w].Processing?
    ensures EffectsMatch(r, i + 1, k, JobOfStep(n, r, i).value, r.states[i].workers[r.events[i].w].log)
    decreases k
  {
    MarkedJobIsHeld(n, r, i);
    var j, log := JobOfStep(n, r, i).value, r.states[i].workers[r.events[i].w].log;
    if k == i + 1 {
      MarkedJobHasNoEffects(n, r, i, log);
    } else {
      EffectsIffCommitted(n, r, i, k - 1);
      StepKeepsMatchFrom(n, r, i, k - 1, j, log);
    }
  }

  lemma StepKeepsMatchFrom(n: nat, r: Run, i: nat, k: nat, j: JobId, log: Log)
    requires IsRun(n, r) && i < k < |r.events| && r.events[i].MarkDone? && JobOfStep(n, r, i) == Some(j)
    requires r.states[i].workers[r.events[i].w].Processing? && r.states[i].workers[r.events[i].w].log == log
    requires EffectsMatch(r, i + 1, k, j, log)
    ensures EffectsMatch(r, i + 1, k + 1, j, log)
  {
    AwaitsFrom(n, r, i, k);
    StepKeepsMatch(n, r, i + 1, k, j, log);
  }

  // ---- At most once ----

  lemma {:induction false} StartsGrow(n: nat, r: Run, i: nat, k: nat)
    requires IsRun(n, r) && i <= k <= |r.events|
    ensures forall j :: j in r.states[i].starts ==> j in r.states[k].starts
    decreases k
  {
    if i < k {
      StartsGrow(n, r, i, k - 1);
      assert Follows(r, k - 1);
    }
  }

  lemma StartIsRecorded(n: nat, r: Run, i: nat)
    requires IsRun(n, r) && i < |r.events| && r.events[i].Start?
    ensures JobOfStep(n, r, i).Some?
    ensures JobOfStep(n, r, i).value !in r.states[i].starts && JobOfStep(n, r, i).value in r.states[i + 1].starts
  {
    InvariantsAt(n, r, i);
    assert Follows(r, i);
    assert HolderOk(r.states[i], r.states[i].workers[r.events[i].w]);
  }

  /** `_process_job` is entered at most once for a job. */
  lemma AtMostOnce(n: nat, r: Run, i: nat, k: nat)
    requires IsRun(n, r) && i < k < |r.events| && r.events[i].Start? && r.events[k].Start?
    ensures JobOfStep(n, r, i).Some? && JobOfStep(n, r, k).Some? && JobOfStep(n, r, i) != JobOfStep(n, r, k)
  {
    StartIsRecorded(n, r, i);
    StartIsRecorded(n, r, k);
    StartsGrow(n, r, i + 1, k);
  }

  /** No two workers ever hold the same job. */
  lemma NoTwoHolders(n: nat, r: Run, i: nat, v: WorkerId, w: WorkerId)
    requires IsRun(n, r) && i <= |r.events| && v < n && w < n && v != w
    ensures |r.states[i].workers| == n
    ensures var ws := r.states[i].workers; !ws[v].Idle? && !ws[w].Idle? ==> ws[v].job != ws[w].job
  {
    InvariantsAt(n, r, i);
  }

  /** Between two points of a run a job's status is the same or strictly further along
      queued < running < done < error; in particular it never returns to queued. */
  lemma {:induction false} StatusOnlyClimbs(n: nat, r: Run, i: nat, k: nat, j: JobId)
    requires IsRun(n, r) && i <= k <= |r.events| && j in r.states[i].jobs
    ensures j in r.states[k].jobs
    ensures var a, b := r.states[i].jobs[j].status, r.states[k].jobs[j].status;
            && (a == b || JobRank(a) < JobRank(b))
            && (b == Queued ==> a == Queued) && (b == Running ==> a in {Queued, Running}) && (b == Done ==> a != JobStatus.Error)
    ensures r.states[k].jobs[j].createdAt == r.states[i].jobs[j].createdAt
    ensures r.states[k].jobs[j].attempt == r.states[i].jobs[j].attempt
    ensures j in r.states[i].requests && j in r.states[k].requests && r.states[k].requests[j] == r.states[i].requests[j]
    decreases k
  {
    InvariantsAt(n, r, i);
    if i < k {
      StatusOnlyClimbs(n, r, i, k - 1, j);
      InvariantsAt(n, r, k - 1);
      assert Follows(r, k - 1);
      StepClimbs(r.states[k - 1], r.events[k - 1], j);
    }
  }

  // ---- Request parameters survive the queue ----

  /** Whatever happens between: the payload a worker claims for a job, and the order it processes, are those of the
      request the job was enqueued with. */
  lemma RequestsSurvive(n: nat, r: Run, i: nat, k: nat, w: WorkerId)
    requires IsRun(n, r) && i < k <= |r.events| && r.events[i].Enqueue? && w < n
    ensures |r.states[k].workers| == n && r.events[i].row in r.states[i].pending
    ensures var q, wk := r.states[i].pending[r.events[i].row], r.states[k].workers[w];
            && (wk.Claimed? && wk.job == r.events[i].id ==> wk.payload == Encode(q))
            && ((wk.Processing? || wk.Committing?) && wk.job == r.events[i].id ==>
                  && wk.order.machine == q.machine && wk.order.attempt == q.attempt
                  && wk.order.ensureOnline == q.ensureOnline && wk.order.pollTimeout == q.pollTimeout
                  && wk.order.strategyOverride == (if q.strategy.None? then None else Some(q.strategy.value.Value())))
  {
    assert Follows(r, i);
    InvariantsAt(n, r, k);
    StatusOnlyClimbs(n, r, i + 1, k, r.events[i].id);
    assert HolderOk(r.states[k], r.states[k].workers[w]);
    DecodeEncode(r.states[i].pending[r.events[i].row]);
  }

  // ---- What is published ----

  /** No committed state of any run holds a WAKING attempt. */
  lemma NoHalfDoneAttempt(n: nat, r: Run, i: nat, id: AttemptId)
    requires IsRun(n, r) && i <= |r.events| && id in r.states[i].attempts
    ensures r.states[i].attempts[id].status != Waking
  {
    InvariantsAt(n, r, i);
  }

  /** Committed attempts never disappear, and a row some transaction has written is changed by no other process until
      it ends: what a job's session may rely on between two of its statements. */
  lemma OthersRespectLocks(n: nat, r: Run, i: nat, w: WorkerId)
    requires IsRun(n, r) && i < |r.events| && w < n && Actor(r.events[i]) != Some(w)
    ensures |r.states[i].workers| == n
    ensures Evolves(r.states[i].attempts, r.states[i + 1].attempts, Touched(LogOf(r.states[i].workers[w])))
  {
    InvariantsAt(n, r, i);
    assert Follows(r, i);
    PublishesApart(r.states[i], r.events[i], w);
    ApplyFrame(r.states[i].attempts, Published(r.states[i], r.events[i]));
  }

  /** Nor does any other process touch the job a worker holds. */
  lemma OthersRespectHeldJob(n: nat, r: Run, i: nat, w: WorkerId)
    requires IsRun(n, r) && i < |r.events| && w < n && Actor(r.events[i]) != Some(w)
    ensures |r.states[i].workers| == n
    ensures var wk := r.states[i].workers[w];
            !wk.Idle? ==> wk.job in r.states[i].jobs && wk.job in r.states[i + 1].jobs
                          && r.states[i + 1].jobs[wk.job] == r.states[i].jobs[wk.job]
                          && Queue.JobsEvolve(r.states[i].jobs, r.states[i + 1].jobs, {wk.job})
  {
    InvariantsAt(n, r, i);
    assert Follows(r, i);
    if !r.states[i].workers[w].Idle? {
      HeldJobIsKept(r.states[i], r.events[i], w);
      StepEvolvesJobs(r.states[i], r.events[i], r.states[i].workers[w].job);
    }
  }

  lemma StepEvolvesJobs(s: State, e: Event, j: JobId)
    requires InPlace(s, e) && j in s.jobs && Do(s, e).jobs[j] == s.jobs[j]
    ensures Queue.JobsEvolve(s.jobs, Do(s, e).jobs, {j})
  {
  }

  lemma HeldJobIsKept(s: State, e: Event, w: WorkerId)
    requires InPlace(s, e) && JobGuard(s, e) && JobInv(s) && w < |s.workers| && Actor(e) != Some(w) && !s.workers[w].Idle?
    ensures s.workers[w].job in s.jobs && s.workers[w].job in Do(s, e).jobs
    ensures Do(s, e).jobs[s.workers[w].job] == s.jobs[s.workers[w].job]
  {
    assert HolderOk(s, s.workers[w]);
    StepTouchesOwnJob(s, e, s.workers[w].job);
  }

  // ---- Which attempt is polled ----

  /** After a successful wake `get_active_for_machine` always finds a row: an unfinished attempt of the same machine
      that started no earlier than the one just sent, and that very one if no other visible unfinished attempt of
      the machine started at the same time or later. The fallback to the payload's attempt id never happens. */
  lemma PollsAnActiveRow(n: nat, r: Run, i: nat, w: WorkerId, a: Action)
    requires IsRun(n, r) && i < |r.events| && r.events[i] == Act(w, a)
    requires a.Pick? || a.PickNone?
    ensures a.Pick? && w < |r.states[i].workers| && r.states[i].workers[w].Processing? && r.states[i].workers[w].phase.Woken?
    ensures var s := r.states[i];
            var own, view, o := s.workers[w].phase.own, View(s, w), s.workers[w].order;
            && own in view && a.target in view
            && view[a.target].machine == o.machine && !view[a.target].status.IsTerminal()
            && view[own].startedAt <= view[a.target].startedAt
            && ((forall x :: x in view && x != own && IsActiveFor(view, o.machine, x) ==> view[x].startedAt < view[own].startedAt)
                ==> a.target == own)
  {
    InvariantsAt(n, r, i);
    assert Follows(r, i);
    var s := r.states[i];
    var wk := s.workers[w];
    assert WorkerShaped(wk) && RowsOk(s.attempts, wk);
    FallbackIsDisabled(s, w, a);
    SentRowIsVisible(s.attempts, wk.order, wk.log);
  }

  /** The statement rewrites a row that its session sees as finished. */
  predicate Overwrites(s: State, w: WorkerId, a: Action)
    requires w < |s.workers| && s.workers[w].Processing? && ActionInPlace(s.workers[w], a)
  {
    var st := Statement(s.workers[w], a);
    st != [] && st[0].Update? && st[0].id in View(s, w) && View(s, w)[st[0].id].status.IsTerminal()
  }

  /** With any number of workers the one place where a finished attempt can be written again is the first write to
      the polled row, and it happens exactly when that row is another transaction's and is finished as committed.
      (Module Rewriting says when it is.) */
  lemma OnlyFirstPollWriteOverwrites(n: nat, r: Run, i: nat, w: WorkerId, a: Action)
    requires IsRun(n, r) && i < |r.events| && r.events[i] == Act(w, a)
    ensures w < |r.states[i].workers| && r.states[i].workers[w].Processing? && ActionInPlace(r.states[i].workers[w], a)
    ensures var s, phase := r.states[i], r.states[i].workers[w].phase;
            Overwrites(s, w, a) <==>
            && (a.StartPolling? || a.MachineMissing?) && phase.target != phase.own
            && phase.target in s.attempts && s.attempts[phase.target].status.IsTerminal()
  {
    InvariantsAt(n, r, i);
    assert Follows(r, i);
    var s := r.states[i];
    assert WorkerShaped(s.workers[w]) && RowsOk(s.attempts, s.workers[w]);
    OverwritesWhen(s, w, a);
  }

  lemma OverwritesWhen(s: State, w: WorkerId, a: Action)
    requires w < |s.workers| && s.workers[w].Processing? && ActionInPlace(s.workers[w], a)
    requires WorkerShaped(s.workers[w]) && RowsOk(s.attempts, s.workers[w])
    ensures var phase := s.workers[w].phase;
            Overwrites(s, w, a) <==>
            && (a.StartPolling? || a.MachineMissing?) && phase.target != phase.own
            && phase.target in s.attempts && s.attempts[phase.target].status.IsTerminal()
  {
    var wk := s.workers[w];
    ApplyShort(s.attempts, wk.log);
    assert View(s, w) == Apply(s.attempts, wk.log);
    match wk.phase
    case Begin =>
    case Created(own) => assert View(s, w)[own] == wk.log[0].row;
    case Woken(_) =>
    case Picked(own, target) => assert target != own ==> View(s, w)[target] == s.attempts[target];
    case Polling(_, target) => assert View(s, w)[target].status == Waking;
    case Finished =>
  }

  // ---- Claim order ----

  /** Every claim takes a queued job such that each older queued job is, at that moment, locked by another claimer. */
  lemma ClaimPassesOverOnlyHeldJobs(n: nat, r: Run, i: nat, x: JobId)
    requires IsRun(n, r) && i < |r.events| && r.events[i].Lock?
    requires x in r.states[i].jobs && r.states[i].jobs[x].status == Queued
    ensures var s, e := r.states[i], r.events[i];
            && e.id in s.jobs && s.jobs[e.id].status == Queued
            && (s.jobs[x].createdAt < s.jobs[e.id].createdAt
                ==> exists v :: 0 <= v < |s.workers| && v != e.w && s.workers[v] == Locking(x))
  {
    assert Follows(r, i);
    var s, e := r.states[i], r.events[i];
    if s.jobs[x].createdAt < s.jobs[e.id].createdAt {
      assert x in LockedJobs(s);
      var v :| 0 <= v < |s.workers| && s.workers[v].Locking? && s.workers[v].job == x;
      assert s.workers[v] == Locking(x);
    }
  }

  /** With one worker, of two jobs that are queued together the older is claimed first, even if claims abort: when
      the younger is locked, the older has left the queue. */
  lemma SoloClaimsInOrder(r: Run, i: nat, k: nat, older: JobId, younger: JobId)
    requires IsRun(1, r) && i <= k < |r.events| && r.events[k].Lock? && r.events[k].id == younger
    requires older in r.states[i].jobs && younger in r.states[i].jobs
    requires r.states[i].jobs[older].status == Queued && r.states[i].jobs[younger].status == Queued
    requires r.states[i].jobs[older].createdAt < r.states[i].jobs[younger].createdAt
    ensures older in r.states[k].jobs && r.states[k].jobs[older].status != Queued
  {
    StatusOnlyClimbs(1, r, i, k, older);
    StatusOnlyClimbs(1, r, i, k, younger);
    InvariantsAt(1, r, k);
    assert Follows(r, k);
    if r.states[k].jobs[older].status == Queued {
      ClaimPassesOverOnlyHeldJobs(1, r, k, older);
    }
  }

  // ---- The client's own attempt row ----

  /** Step `i` commits a transaction whose polled row is `id`. */
  predicate PolledAt(r: Run, i: nat, id: AttemptId)
    requires i < |r.events| && i < |r.states|
  {
    var s, e := r.states[i], r.events[i];
    e.Commit? && e.w < |s.workers| && s.workers[e.w].Committing? && Polls(s.workers[e.w].log, id)
  }

  predicate Polls(log: Log, id: AttemptId) {
    |log| > 2 && log[2].id == id
  }

  /** A transaction finishes the row it polls, and of the rows there already it changes no other. */
  lemma CommitTouchesPolledRow(attempts: Table, o: WakeOrder, log: Log, id: AttemptId)
    requires IsComplete(o, log) && id in attempts && (log != [] ==> log[0].id != id)
    ensures id in Apply(attempts, log)
    ensures if Polls(log, id) then Apply(attempts, log)[id].status.IsTerminal() else Apply(attempts, log)[id] == attempts[id]
  {
    ApplyShort(attempts, log);
  }

  lemma StepTouchesPolledRow(n: nat, r: Run, i: nat, id: AttemptId)
    requires IsRun(n, r) && i < |r.events| && id in r.states[i].attempts
    ensures var before, after := r.states[i].attempts, r.states[i + 1].attempts;
            id in after && if PolledAt(r, i, id) then after[id].status.IsTerminal() else after[id] == before[id]
  {
    InvariantsAt(n, r, i);
    assert Follows(r, i);
    var s, e := r.states[i], r.events[i];
    if e.Commit? {
      var wk := s.workers[e.w];
      assert WorkerShaped(wk) && RowsOk(s.attempts, wk);
      CommitTouchesPolledRow(s.attempts, wk.order, wk.log, id);
    } else {
      ApplyFrame(s.attempts, Published(s, e));
    }
  }

  /** The worker makes a row of its own for every job, so the row whose id POST /wake returned to its client is not the
      one the worker sends. It stays exactly as it was created, PENDING, if and only if no job that polled it has
      committed; whether its own job is done plays no part. */
  lemma {:induction false} ClientRowPendingUntilPolled(n: nat, r: Run, i: nat, k: nat)
    requires IsRun(n, r) && i < k <= |r.events| && r.events[i].PostWake?
    ensures r.events[i].attempt.status == Pending && r.events[i].row in r.states[k].attempts
    ensures var row := r.states[k].attempts[r.events[i].row];
            && (row == r.events[i].attempt <==> forall l :: i < l < k ==> !PolledAt(r, l, r.events[i].row))
            && (row.status == Pending <==> row == r.events[i].attempt)
    decreases k
  {
    assert Follows(r, i);
    if k == i + 1 {
      ApplyShort(r.states[i].attempts, [Insert(r.events[i].row, r.events[i].attempt)]);
    } else {
      ClientRowPendingUntilPolled(n, r, i, k - 1);
      StepTouchesPolledRow(n, r, k - 1, r.events[i].row);
    }
  }
}
