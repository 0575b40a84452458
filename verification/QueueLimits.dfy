/** What the queue does not secure: how far a claim can jump, and what becomes of a job whose worker lets go of it. */
module QueueLimits {
  import opened Wrappers
  import opened Pipeline
  import opened JobInvariants
  import opened AttemptInvariants
  import opened PipelineTheorems

  // ---- Overtaking ----

  /** The jobs that some of the first `m` workers, `w` excepted, have locked. */
  function LockedByOthers(workers: seq<Worker>, w: WorkerId, m: nat): set<JobId>
    requires m <= |workers|
  {
    if m == 0 then {}
    else
      var front := LockedByOthers(workers, w, m - 1);
      if m - 1 != w && workers[m - 1].Locking? then front + {workers[m - 1].job} else front
  }

  lemma {:induction false} FewLocked(workers: seq<Worker>, w: WorkerId, m: nat)
    requires m <= |workers|
    ensures |LockedByOthers(workers, w, m)| <= if w < m then m - 1 else m
    ensures forall v :: 0 <= v < m && v != w && workers[v].Locking? ==> workers[v].job in LockedByOthers(workers, w, m)
  {
    if m > 0 {
      FewLocked(workers, w, m - 1);
    }
  }

  /** The queued jobs created before job `id`. */
  function OlderQueued(jobs: Jobs, id: JobId): set<JobId>
    requires id in jobs
  {
    set x | x in jobs && jobs[x].status == Queued && jobs[x].createdAt < jobs[id].createdAt
  }

  /** A claim overtakes fewer older jobs than there are workers; with a single worker it overtakes none. */
  lemma ClaimOvertakesFewerThanWorkers(n: nat, r: Run, i: nat)
    requires IsRun(n, r) && i < |r.events| && r.events[i].Lock?
    ensures r.events[i].id in r.states[i].jobs
    ensures var jobs, id := r.states[i].jobs, r.events[i].id;
            |set x | x in jobs && jobs[x].status == Queued && jobs[x].createdAt < jobs[id].createdAt| < n
  {
    InvariantsAt(n, r, i);
    assert Follows(r, i);
    var s, e := r.states[i], r.events[i];
    var older, locked := OlderQueued(s.jobs, e.id), LockedByOthers(s.workers, e.w, |s.workers|);
    FewLocked(s.workers, e.w, |s.workers|);
    forall x | x in older
      ensures x in locked
    {
      ClaimPassesOverOnlyHeldJobs(n, r, i, x);
    }
    SubsetIsSmaller(older, locked);
  }

  // ---- Abandoned jobs ----

  /** The job says running, and no worker holds it. */
  predicate IsAbandoned(s: State, j: JobId) {
    j in s.jobs && s.jobs[j].status == Running && IsUnheld(s.workers, j)
  }

  /** A job that has left the queue and that nobody holds is never touched again. */
  lemma StepLeavesUnheld(s: State, e: Event, j: JobId)
    requires InPlace(s, e) && JobGuard(s, e) && TableOk(s.jobs, s.requests, s.starts)
    requires j in s.jobs && s.jobs[j].status != Queued && IsUnheld(s.workers, j)
    ensures j in Do(s, e).jobs && Do(s, e).jobs[j] == s.jobs[j] && IsUnheld(NextWorkers(s, e), j)
    ensures OfJob(Do(s, e).ledger, j) == OfJob(s.ledger, j)
  {
    StepTouchesOwnJob(s, e, j);
    StepKeepsUnheld(s, e, j);
    OtherStepsPublishNothing(s, e, j);
  }

  /** Nothing puts a job back into the queue: one that its worker has let go of while it was running stays as it is for
      the rest of the run, is never served, and has no effects. */
  lemma {:induction false} AbandonedForEver(n: nat, r: Run, i: nat, k: nat, j: JobId)
    requires IsRun(n, r) && i <= k <= |r.events| && IsAbandoned(r.states[i], j)
    ensures IsAbandoned(r.states[k], j) && r.states[k].jobs[j] == r.states[i].jobs[j]
    ensures forall x :: x in r.states[k].ledger ==> x.source != ByJob(j)
    decreases k
  {
    if i < k {
      AbandonedForEver(n, r, i, k - 1, j);
      InvariantsAt(n, r, k - 1);
      assert Follows(r, k - 1);
      StepLeavesUnheld(r.states[k - 1], r.events[k - 1], j);
    }
    InvariantsAt(n, r, k);
  }

  /** At step `i` a worker dies, or an exception escapes its turn, while the job it holds is running. */
  predicate DropsAt(r: Run, i: nat, j: JobId)
    requires i < |r.events| && i < |r.states|
  {
    var s, e := r.states[i], r.events[i];
    && (e.Crash? || e.GiveUp?) && e.w < |s.workers| && !s.workers[e.w].Idle? && s.workers[e.w].job == j
    && j in s.jobs && s.jobs[j].status == Running
  }

  lemma DropAbandons(s: State, e: Event)
    requires InPlace(s, e) && (e.Crash? || e.GiveUp?) && Exclusive(s.workers) && !s.workers[e.w].Idle?
    requires s.workers[e.w].job in s.jobs && s.jobs[s.workers[e.w].job].status == Running
    ensures IsAbandoned(Do(s, e), s.workers[e.w].job)
  {
  }

  /** A job is let go of only by the worker that holds it, which is idle afterwards. */
  lemma OnlyHolderLetsGo(s: State, e: Event, j: JobId)
    requires InPlace(s, e) && !IsUnheld(s.workers, j) && IsUnheld(NextWorkers(s, e), j)
    ensures Actor(e).Some? && !s.workers[Actor(e).value].Idle? && s.workers[Actor(e).value].job == j
    ensures NextWorker(s, e).Idle?
  {
    var v :| 0 <= v < |s.workers| && !s.workers[v].Idle? && s.workers[v].job == j;
    assert NextWorkers(s, e)[v].Idle? || NextWorkers(s, e)[v].job != j;
    NextWorkerKeepsJob(s, e);
  }

  /** A step that changes the status of a job to running does not leave it unheld. */
  lemma UnheldDoesNotStart(s: State, e: Event, j: JobId)
    requires InPlace(s, e) && JobGuard(s, e) && TableOk(s.jobs, s.requests, s.starts) && IsUnheld(s.workers, j)
    requires j in Do(s, e).jobs && Do(s, e).jobs[j].status == Running
    ensures j in s.jobs && s.jobs[j].status == Running
  {
    if j in s.jobs {
      StepTouchesOwnJob(s, e, j);
    }
  }

  /** Only such a step abandons a job. */
  lemma OnlyDropAbandons(s: State, e: Event, j: JobId)
    requires InPlace(s, e) && JobGuard(s, e) && JobInv(s) && IsAbandoned(Do(s, e), j) && !IsAbandoned(s, j)
    ensures (e.Crash? || e.GiveUp?) && !s.workers[e.w].Idle? && s.workers[e.w].job == j
    ensures j in s.jobs && s.jobs[j].status == Running
  {
    if IsUnheld(s.workers, j) {
      UnheldDoesNotStart(s, e, j);
    } else {
      OnlyHolderLetsGo(s, e, j);
      assert HolderOk(s, s.workers[Actor(e).value]);
    }
  }

  /** A job is stuck in running if and only if its worker died, or gave up its turn, while it was. */
  lemma {:induction false} AbandonedIffDropped(n: nat, r: Run, k: nat, j: JobId)
    requires IsRun(n, r) && k <= |r.events|
    ensures IsAbandoned(r.states[k], j) <==> exists l :: 0 <= l < k && DropsAt(r, l, j)
  {
    if k > 0 {
      AbandonedIffDropped(n, r, k - 1, j);
      AbandonedAfterStep(n, r, k - 1, j);
    }
  }

  lemma AbandonedAfterStep(n: nat, r: Run, k: nat, j: JobId)
    requires IsRun(n, r) && k < |r.events|
    ensures IsAbandoned(r.states[k + 1], j) <==> IsAbandoned(r.states[k], j) || DropsAt(r, k, j)
  {
    InvariantsAt(n, r, k);
    assert Follows(r, k);
    var s, e := r.states[k], r.events[k];
    if IsAbandoned(s, j) {
      StepLeavesUnheld(s, e, j);
    } else if DropsAt(r, k, j) {
      DropAbandons(s, e);
    } else if IsAbandoned(Do(s, e), j) {
      OnlyDropAbandons(s, e, j);
    }
  }
}
