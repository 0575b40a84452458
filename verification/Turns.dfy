/** What one turn of a worker does to the tables, whether it is looked at as a method (worker/main.py, in WorkerLoop) or as
    a sequence of events. */
module Turns {
  import opened Wrappers
  import opened AttemptTable
  import opened Payloads
  import opened Pipeline
  import opened JobInvariants
  import opened AttemptInvariants
  import opened PipelineTheorems

  /** How one turn of the loop can end. */
  datatype Turn =
    | NoJob
    | Unclaimed                 // the commit of the claim failed: "worker_loop_error"
    | Completed(job: JobId)     // marked done, and its writes committed
    | Errored(job: JobId)       // rolled back and marked error
    | Escaped(job: JobId)       // rolled back, but an exception reached the outer handler: "worker_loop_error"

  /** Which commits of a turn fail. */
  datatype Commits = Commits(claimFails: bool, doneFails: bool, sessionFails: bool, errorFails: bool)

  /** The turn publishes its transaction: `_process_job` returned, and both commits after it went through. */
  predicate Publishes(processed: bool, c: Commits) {
    processed && !c.doneFails && !c.sessionFails
  }

  /** The job row of a claim that went through. */
  function ClaimedJob(job: Job, now: Time): Job {
    job.(status := Running, claimedAt := Some(now))
  }

  /** The row of a job that was claimed, once the two commits, or the rollback and `mark_error`, have been tried. */
  function SettledJob(claimed: Job, processed: bool, c: Commits, error: string): Job {
    var marked := if processed && !c.doneFails then claimed.(status := Done) else claimed;
    if Publishes(processed, c) || c.errorFails then marked
    else marked.(status := JobStatus.Error, payload := ErrorPayload(error))
  }

  // ---- Every turn in every run ends as the method says, whatever other processes do meanwhile ----

  /** Worker `w` serves job `id`, whose row was `before` when it was locked. */
  predicate Serving(s: State, w: WorkerId, id: JobId, before: Job) {
    && w < |s.workers| && !s.workers[w].Idle? && s.workers[w].job == id && id in s.jobs
    && var row := s.jobs[id];
       if s.workers[w].Locking? then row == before
       else row.claimedAt.Some? && row == ClaimedJob(before, row.claimedAt.value).(status := row.status)
  }

  lemma OwnStepKeepsServing(s: State, e: Event, w: WorkerId, id: JobId, before: Job)
    requires InPlace(s, e) && Actor(e) == Some(w) && Serving(s, w, id, before) && !NextWorker(s, e).Idle?
    ensures Serving(Do(s, e), w, id, before)
  {
  }

  lemma OtherStepKeepsServing(s: State, e: Event, w: WorkerId, id: JobId, before: Job)
    requires InPlace(s, e) && JobGuard(s, e) && JobInv(s) && Actor(e) != Some(w) && Serving(s, w, id, before)
    ensures Serving(Do(s, e), w, id, before)
  {
    HeldJobIsKept(s, e, w);
  }

  /** From the lock on and as long as it lasts, a turn serves its job. */
  lemma {:induction false} ServingFrom(n: nat, r: Run, i: nat, k: nat, w: WorkerId, id: JobId)
    requires IsRun(n, r) && i < k <= |r.events| && r.events[i] == Lock(w, id)
    requires forall m :: i < m <= k ==> w < |r.states[m].workers| && !r.states[m].workers[w].Idle?
    ensures id in r.states[i].jobs && Serving(r.states[k], w, id, r.states[i].jobs[id])
    decreases k
  {
    assert Follows(r, i);
    if k > i + 1 {
      ServingFrom(n, r, i, k - 1, w, id);
      InvariantsAt(n, r, k - 1);
      assert Follows(r, k - 1);
      if Actor(r.events[k - 1]) == Some(w) {
        OwnStepKeepsServing(r.states[k - 1], r.events[k - 1], w, id, r.states[i].jobs[id]);
      } else {
        OtherStepKeepsServing(r.states[k - 1], r.events[k - 1], w, id, r.states[i].jobs[id]);
      }
    }
  }

  /** Which commits failed, as the last step of a turn shows. */
  function CommitsShownBy(e: Event, status: JobStatus): Commits {
    Commits(false, status == Running, status == Done && !e.Commit?, e.GiveUp?)
  }

  /** The last step of a turn that has got past the claim. */
  lemma LastStepSettles(s: State, e: Event, w: WorkerId, id: JobId, before: Job)
    requires InPlace(s, e) && JobGuard(s, e) && JobInv(s) && Serving(s, w, id, before)
    requires Actor(e) == Some(w) && NextWorker(s, e).Idle? && (e.Commit? || e.MarkError? || e.GiveUp?)
    ensures var row := s.jobs[id];
            var c := CommitsShownBy(e, row.status);
            && row.claimedAt.Some? && id in Do(s, e).jobs
            && Do(s, e).jobs[id] == SettledJob(ClaimedJob(before, row.claimedAt.value), row.status == Done, c,
                                               if e.MarkError? then e.error else "")
            && (Publishes(row.status == Done, c) <==> e.Commit?)
  {
    assert HolderOk(s, s.workers[w]);
  }

  /** Take any run, any number of other processes, and a turn of worker `w` in it that is not cut off by a crash: it locks a
      job at step `i` and is idle again after step `k`. Then the claim was aborted and the job is as before; or the job's
      row is one that the method can leave; and the job has published its transaction, complete for the payload the job
      had when it was locked, if that is what the row means, and nothing otherwise. */
  lemma EveryTurnSettles(n: nat, r: Run, i: nat, k: nat, w: WorkerId, id: JobId)
    requires IsRun(n, r) && i < k < |r.events| && r.events[i] == Lock(w, id)
    requires forall m :: i < m <= k ==> w < |r.states[m].workers| && !r.states[m].workers[w].Idle?
    requires Actor(r.events[k]) == Some(w) && !r.events[k].Crash?
    requires w < |r.states[k + 1].workers| && r.states[k + 1].workers[w].Idle?
    ensures id in r.states[i].jobs && id in r.states[k + 1].jobs
    ensures var before, after := r.states[i].jobs[id], r.states[k + 1].jobs[id];
            if r.events[k].ClaimAbort? then after == before
            else exists now, processed, c, error ::
                after == SettledJob(ClaimedJob(before, now), processed, c, error)
                && (Publishes(processed, c) <==> r.events[k].Commit?)
    ensures r.events[k].Commit? ==>
              && Decode(r.states[i].jobs[id].payload).Success?
              && IsComplete(Decode(r.states[i].jobs[id].payload).value, OfJob(r.states[k + 1].ledger, id))
    ensures !r.events[k].Commit? ==> OfJob(r.states[k + 1].ledger, id) == []
  {
    ServingFrom(n, r, i, k, w, id);
    InvariantsAt(n, r, k);
    assert Follows(r, k);
    var s, e, before := r.states[k], r.events[k], r.states[i].jobs[id];
    TurnPublishes(n, r, i, k, w, id);
    if e.ClaimAbort? {
      assert Do(s, e).jobs[id] == before;
    } else {
      LastStepSettles(s, e, w, id, before);
      var row := s.jobs[id];
      var c, error := CommitsShownBy(e, row.status), if e.MarkError? then e.error else "";
      assert Do(s, e).jobs[id] == SettledJob(ClaimedJob(before, row.claimedAt.value), row.status == Done, c, error);
    }
  }

  lemma TurnPublishes(n: nat, r: Run, i: nat, k: nat, w: WorkerId, id: JobId)
    requires IsRun(n, r) && i < k < |r.events| && r.events[i] == Lock(w, id)
    requires id in r.states[i].jobs && Serving(r.states[k], w, id, r.states[i].jobs[id]) && Actor(r.events[k]) == Some(w)
    ensures r.events[k].Commit? ==>
              && Decode(r.states[i].jobs[id].payload).Success?
              && IsComplete(Decode(r.states[i].jobs[id].payload).value, OfJob(r.states[k + 1].ledger, id))
    ensures !r.events[k].Commit? ==> OfJob(r.states[k + 1].ledger, id) == []
  {
    InvariantsAt(n, r, k);
    assert Follows(r, k);
    HeldHasNoEffects(r.states[k], w);
    if r.events[k].Commit? {
      CommitAt(n, r, k);
      LockedPayload(n, r, i, k, id);
    } else {
      OtherStepsPublishNothing(r.states[k], r.events[k], id);
    }
  }

  lemma HeldHasNoEffects(s: State, w: WorkerId)
    requires LedgerOk(s) && w < |s.workers| && !s.workers[w].Idle?
    ensures OfJob(s.ledger, s.workers[w].job) == []
  {
    assert forall x :: x in s.ledger ==> x.source != ByJob(s.workers[w].job);
    OfJobNothing(s.ledger, s.workers[w].job);
  }

  /** The payload a job has when it is locked is that of its request, then and after the commit. */
  lemma LockedPayload(n: nat, r: Run, i: nat, k: nat, id: JobId)
    requires IsRun(n, r) && i < k < |r.events| && r.events[i].Lock? && r.events[i].id == id
    ensures id in r.states[i].jobs && id in r.states[k + 1].requests
    ensures r.states[i].jobs[id].payload == Encode(r.states[k + 1].requests[id])
  {
    InvariantsAt(n, r, i);
    assert Follows(r, i);
    StatusOnlyClimbs(n, r, i, k + 1, id);
  }
}
