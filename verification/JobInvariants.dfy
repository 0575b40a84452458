/** The job queue under any number of workers: who holds a job, how often it starts, what its status and payload
    can do. */
module JobInvariants {
  import opened Wrappers
  import opened Payloads
  import opened Pipeline

  function JobRank(s: JobStatus): nat {
    match s
    case Queued => 0
    case Running => 1
    case Done => 2
    case Error => 3
  }

  /** What a worker's state says about the job it holds. */
  predicate HolderOk(s: State, wk: Worker) {
    wk.Idle? ||
    (wk.job in s.jobs && wk.job in s.requests &&
     var status := s.jobs[wk.job].status;
     match wk
     case Idle => true
     case Locking(_) => status == Queued
     case Claimed(j, payload) => status == Running && j !in s.starts && payload == Encode(s.requests[j])
     case Processing(j, order, _, _) => status == Running && j in s.starts && Decode(Encode(s.requests[j])) == Success(order)
     case Committing(j, order, _) => status == Done && j in s.starts && Decode(Encode(s.requests[j])) == Success(order)
     case RolledBack(j) => status in {Running, Done} && j in s.starts)
  }

  predicate Exclusive(workers: seq<Worker>) {
    forall v, w :: 0 <= v < w < |workers| && !workers[v].Idle? && !workers[w].Idle? ==> workers[v].job != workers[w].job
  }

  /** What the tables say about a job, whoever holds it. */
  predicate TableOk(jobs: Jobs, requests: map<JobId, WakeRequest>, starts: seq<JobId>) {
    && requests.Keys == jobs.Keys
    && (forall j :: j in jobs && jobs[j].status == Queued ==> j !in starts)
    && (forall j :: j in jobs && jobs[j].status != JobStatus.Error ==> jobs[j].payload == Encode(requests[j]))
    && (forall j :: j in starts ==> j in jobs)
    && NoRepeats(starts)
  }

  predicate HoldersOk(s: State) {
    forall w :: 0 <= w < |s.workers| ==> HolderOk(s, s.workers[w])
  }

  predicate JobInv(s: State) {
    TableOk(s.jobs, s.requests, s.starts) && HoldersOk(s) && Exclusive(s.workers)
  }

  /** A step changes no job but the one its worker holds, or the one it enqueues. */
  lemma StepTouchesOwnJob(s: State, e: Event, j: JobId)
    requires InPlace(s, e) && JobGuard(s, e) && TableOk(s.jobs, s.requests, s.starts) && j in s.jobs
    requires Actor(e).Some? ==> s.workers[Actor(e).value].Idle? || s.workers[Actor(e).value].job != j
    ensures j in Do(s, e).jobs && Do(s, e).jobs[j] == s.jobs[j] && Do(s, e).requests[j] == s.requests[j]
    ensures j in Do(s, e).starts <==> j in s.starts
  {
  }

  lemma ActorKeepsHolding(s: State, e: Event)
    requires InPlace(s, e) && JobGuard(s, e) && Actor(e).Some?
    requires TableOk(s.jobs, s.requests, s.starts) && HolderOk(s, s.workers[Actor(e).value])
    ensures HolderOk(Do(s, e), NextWorker(s, e))
  {
  }

  lemma OthersKeepHolding(s: State, e: Event, w: WorkerId)
    requires InPlace(s, e) && JobGuard(s, e) && TableOk(s.jobs, s.requests, s.starts)
    requires w < |s.workers| && Actor(e) != Some(w) && HolderOk(s, s.workers[w])
    requires Exclusive(s.workers)
    ensures HolderOk(Do(s, e), s.workers[w])
  {
    if !s.workers[w].Idle? {
      StepTouchesOwnJob(s, e, s.workers[w].job);
    }
  }

  lemma StepKeepsHolders(s: State, e: Event)
    requires InPlace(s, e) && JobGuard(s, e) && JobInv(s)
    ensures HoldersOk(Do(s, e))
  {
    var s' := Do(s, e);
    forall w | 0 <= w < |s'.workers|
      ensures HolderOk(s', s'.workers[w])
    {
      if Actor(e) == Some(w) {
        ActorKeepsHolding(s, e);
      } else {
        OthersKeepHolding(s, e, w);
      }
    }
  }

  lemma UpdateKeepsTable(jobs: Jobs, requests: map<JobId, WakeRequest>, starts: seq<JobId>, j: JobId, job: Job)
    requires TableOk(jobs, requests, starts) && j in jobs
    requires job.status != Queued && (job.status != JobStatus.Error ==> job.payload == Encode(requests[j]))
    ensures TableOk(jobs[j := job], requests, starts)
  {
  }

  lemma StartKeepsTable(jobs: Jobs, requests: map<JobId, WakeRequest>, starts: seq<JobId>, j: JobId)
    requires TableOk(jobs, requests, starts) && j in jobs && jobs[j].status != Queued && j !in starts
    ensures TableOk(jobs, requests, starts + [j])
  {
    assert forall i :: 0 <= i < |starts| ==> starts[i] in starts;
  }

  lemma EnqueueKeepsTable(jobs: Jobs, requests: map<JobId, WakeRequest>, starts: seq<JobId>, j: JobId, job: Job, q: WakeRequest)
    requires TableOk(jobs, requests, starts) && j !in jobs && job.payload == Encode(q)
    ensures TableOk(jobs[j := job], requests[j := q], starts)
  {
  }

  lemma StepKeepsTables(s: State, e: Event)
    requires InPlace(s, e) && JobGuard(s, e) && TableOk(s.jobs, s.requests, s.starts)
    requires Actor(e).Some? ==> HolderOk(s, s.workers[Actor(e).value])
    ensures TableOk(Do(s, e).jobs, Do(s, e).requests, Do(s, e).starts)
  {
    var jobs := NextJobs(s, e);
    match e
    case Enqueue(id, row, _) => EnqueueKeepsTable(s.jobs, s.requests, s.starts, id, jobs[id], s.pending[row]);
    case Start(w) => StartKeepsTable(s.jobs, s.requests, s.starts, s.workers[w].job);
    case ClaimCommit(w, _) => UpdateKeepsTable(s.jobs, s.requests, s.starts, s.workers[w].job, jobs[s.workers[w].job]);
    case MarkDone(w) => UpdateKeepsTable(s.jobs, s.requests, s.starts, s.workers[w].job, jobs[s.workers[w].job]);
    case MarkError(w, _) => UpdateKeepsTable(s.jobs, s.requests, s.starts, s.workers[w].job, jobs[s.workers[w].job]);
    case _ =>
  }

  lemma LockedJobIsFree(s: State, id: JobId, w: WorkerId)
    requires HoldersOk(s) && IsOldestFree(s.jobs, LockedJobs(s), id) && w < |s.workers| && !s.workers[w].Idle?
    ensures s.workers[w].job != id
  {
    assert HolderOk(s, s.workers[w]);
  }

  lemma StepKeepsExclusion(s: State, e: Event)
    requires JobInv(s) && InPlace(s, e) && JobGuard(s, e)
    ensures Exclusive(NextWorkers(s, e))
  {
    if e.Lock? {
      forall w | 0 <= w < |s.workers| && !s.workers[w].Idle?
        ensures s.workers[w].job != e.id
      {
        LockedJobIsFree(s, e.id, w);
      }
    } else if Actor(e).Some? {
      assert NextWorker(s, e).Idle? || NextWorker(s, e).job == s.workers[Actor(e).value].job;
    }
  }

  /** Every step, by whichever process, keeps the job invariant. */
  lemma StepKeepsJobs(s: State, e: Event)
    requires InPlace(s, e) && JobGuard(s, e) && JobInv(s)
    ensures JobInv(Do(s, e))
  {
    StepKeepsHolders(s, e);
    StepKeepsExclusion(s, e);
    StepKeepsTables(s, e);
  }

  /** The job table only grows, and the status of a job only climbs. */
  lemma StepClimbs(s: State, e: Event, j: JobId)
    requires InPlace(s, e) && JobGuard(s, e) && JobInv(s) && j in s.jobs
    ensures j in Do(s, e).jobs && Do(s, e).requests[j] == s.requests[j]
    ensures Do(s, e).jobs[j].createdAt == s.jobs[j].createdAt && Do(s, e).jobs[j].attempt == s.jobs[j].attempt
    ensures Do(s, e).jobs[j].status == s.jobs[j].status || JobRank(s.jobs[j].status) < JobRank(Do(s, e).jobs[j].status)
  {
    if Actor(e).Some? && !s.workers[Actor(e).value].Idle? && s.workers[Actor(e).value].job == j {
      assert HolderOk(s, s.workers[Actor(e).value]);
    } else {
      StepTouchesOwnJob(s, e, j);
    }
  }
}
