/** The database-backed job queue: worker/job_queue.py. */
module JobQueue {
  import opened Wrappers
  import opened AttemptTable
  import opened Payloads
  import opened Pipeline

  /** How the job table may move while this process is not looking: jobs stay, and the ones in `held` are left alone and
      not made by others. */
  predicate JobsEvolve(before: Jobs, after: Jobs, held: set<JobId>) {
    && before.Keys <= after.Keys
    && (forall j :: j in before && j in held ==> after[j] == before[j])
    && (forall j :: j in after && j !in before ==> j !in held)
  }

  /** Among some free jobs one was created first. */
  lemma {:induction false} OldestExists(jobs: Jobs, free: set<JobId>, id: JobId) returns (oldest: JobId)
    requires id in free && forall x :: x in free ==> x in jobs
    ensures oldest in free && forall x :: x in free && x in jobs ==> jobs[oldest].createdAt <= jobs[x].createdAt
    decreases |free|
  {
    if x :| x in free && jobs[x].createdAt < jobs[id].createdAt {
      var rest := free - {id};
      assert free == rest + {id};
      oldest := OldestExists(jobs, rest, x);
    } else {
      oldest := id;
    }
  }

  /** `jobs` is the committed table as this process sees it, `locked` the rows other claimers hold. */
  class JobQueue {
    var jobs: Jobs
    var locked: set<JobId>

    constructor (jobs: Jobs, locked: set<JobId>)
      ensures this.jobs == jobs && this.locked == locked
    {
      this.jobs, this.locked := jobs, locked;
    }

    /** Other processes run; the caller's own job is left alone. */
    method Await(held: set<JobId>)
      modifies this
      ensures JobsEvolve(old(jobs), jobs, held)
    {
      assert JobsEvolve(jobs, jobs, held);
      var moved, others :| JobsEvolve(jobs, moved, held);
      jobs, locked := moved, others;
    }

    /** `claim_next`: the oldest queued row nobody else has locked, turned to running; None when there is none; an
        error, and no change, when the commit fails. */
    method ClaimNext(now: Time, commitFails: bool) returns (r: Result<Option<(JobId, Payload)>, string>)
      modifies this`jobs
      ensures r == Success(None) <==> forall id :: id in old(jobs) && old(jobs)[id].status == Queued ==> id in locked
      ensures r == Success(None) || r.Failure? ==> jobs == old(jobs)
      ensures r.Success? && r.value.Some? ==>
                var (id, payload) := r.value.value;
                && IsOldestFree(old(jobs), locked, id)
                && payload == old(jobs)[id].payload
                && jobs == old(jobs)[id := old(jobs)[id].(status := Running, claimedAt := Some(now))]
      ensures r != Success(None) ==> (r.Failure? <==> commitFails)
    {
      var free := set id | id in jobs && jobs[id].status == Queued && id !in locked;
      if free == {} {
        assert forall id :: id in jobs && jobs[id].status == Queued && id !in locked ==> id in free;
        return Success(None);
      }
      ghost var some :| some in free;
      ghost var oldest := OldestExists(jobs, free, some);
      assert IsOldestFree(jobs, locked, oldest);
      var id :| id in free && IsOldestFree(jobs, locked, id);
      if commitFails {
        return Failure("commit failed");
      }
      var row := jobs[id];
      jobs := jobs[id := row.(status := Running, claimedAt := Some(now))];
      r := Success(Some((id, row.payload)));
    }

    /** `mark_done`: an UPDATE by id alone, whatever the status was. */
    method MarkDone(id: JobId, commitFails: bool) returns (ok: bool)
      modifies this`jobs
      ensures ok <==> !commitFails
      ensures jobs.Keys == old(jobs).Keys
      ensures forall x :: x in jobs && (x != id || !ok) ==> jobs[x] == old(jobs)[x]
      ensures ok && id in jobs ==> jobs[id] == old(jobs)[id].(status := Done)
    {
      if !commitFails && id in jobs {
        jobs := jobs[id := jobs[id].(status := Done)];
      }
      ok := !commitFails;
    }

    /** `mark_error`: likewise, and the payload is replaced by the error. */
    method MarkError(id: JobId, error: string, commitFails: bool) returns (ok: bool)
      modifies this`jobs
      ensures ok <==> !commitFails
      ensures jobs.Keys == old(jobs).Keys
      ensures forall x :: x in jobs && (x != id || !ok) ==> jobs[x] == old(jobs)[x]
      ensures ok && id in jobs ==> jobs[id] == old(jobs)[id].(status := JobStatus.Error, payload := ErrorPayload(error))
      ensures ok && id in jobs ==> jobs[id].payload == map[Key.Error := JStr(error)]
    {
      if !commitFails && id in jobs {
        jobs := jobs[id := jobs[id].(status := JobStatus.Error, payload := ErrorPayload(error))];
      }
      ok := !commitFails;
    }

    /** `enqueue`, with the fresh UUID and the creation time the row gets. A job that is not committed is not there. */
    method Enqueue(id: JobId, attempt: AttemptId, payload: Payload, now: Time, commitFails: bool) returns (ok: bool)
      requires id !in jobs
      modifies this`jobs
      ensures ok <==> !commitFails
      ensures id in jobs <==> ok
      ensures jobs - {id} == old(jobs)
      ensures ok ==> jobs[id] == Job(attempt, Queued, payload, now, None)
    {
      ok := !commitFails;
      if ok {
        jobs := jobs[id := Job(attempt, Queued, payload, now, None)];
      }
    }
  }
}
