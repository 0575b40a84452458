/** When a finished attempt is written again, for any number of workers: exactly when two commits poll the same row. */
module Rewriting {
  import opened AttemptTable
  import opened Payloads
  import opened Pipeline
  import opened AttemptInvariants
  import opened PipelineTheorems

  /** The worker has picked the row, or has begun to write the outcome of polling it. */
  predicate Targets(wk: Worker, id: AttemptId) {
    (wk.Processing? && wk.phase.Picked? && wk.phase.target == id) || Polls(LogOf(wk), id)
  }

  /** An earlier step committed a transaction that polled the row. */
  predicate PolledBefore(r: Run, i: nat, id: AttemptId)
    requires i <= |r.events| < |r.states|
  {
    exists l :: 0 <= l < i && PolledAt(r, l, id)
  }

  predicate IsFinished(t: Table, id: AttemptId) {
    id in t && t[id].status.IsTerminal()
  }

  /** A committed row is unfinished at the moment it is picked. */
  lemma PickedRowIsOpen(s: State, w: WorkerId, target: AttemptId)
    requires w < |s.workers| && s.workers[w].Processing? && s.workers[w].phase.Woken?
    requires IsLatestActive(View(s, w), s.workers[w].order.machine, target)
    requires WorkerShaped(s.workers[w]) && RowsOk(s.attempts, s.workers[w])
    ensures !IsFinished(s.attempts, target)
  {
    ApplyShort(s.attempts, s.workers[w].log);
  }

  /** A worker comes to target a row only by picking it. */
  lemma NewTargetIsOpen(s: State, e: Event, w: WorkerId, id: AttemptId)
    requires Enabled(s, e) && LocksOk(s) && w < |s.workers|
    requires Targets(NextWorkers(s, e)[w], id) && !Targets(s.workers[w], id)
    ensures !IsFinished(Do(s, e).attempts, id)
  {
    assert WorkerShaped(s.workers[w]) && RowsOk(s.attempts, s.workers[w]);
    assert e.Act? && e.w == w;
    FallbackIsDisabled(s, w, e.action);
    assert e.action == Pick(id);
    PickedRowIsOpen(s, w, id);
  }

  /** A row still targeted, if committed after the step, was committed before it: a worker's own row is not. */
  lemma TargetWasCommitted(s: State, e: Event, w: WorkerId, id: AttemptId)
    requires Enabled(s, e) && LocksOk(s) && LocksOk(Do(s, e)) && w < |s.workers|
    requires Targets(s.workers[w], id) && Targets(NextWorkers(s, e)[w], id) && id in Do(s, e).attempts
    ensures id in s.attempts
  {
    var wk, wk' := s.workers[w], Do(s, e).workers[w];
    assert WorkerShaped(wk) && RowsOk(s.attempts, wk) && RowsOk(Do(s, e).attempts, wk');
    assert LogOf(wk) != [] && LogOf(wk') != [] && LogOf(wk')[0] == LogOf(wk)[0];
  }

  lemma StepKeepsTarget(s: State, e: Event, w: WorkerId, id: AttemptId)
    requires Enabled(s, e) && LocksOk(s) && LocksOk(Do(s, e)) && w < |s.workers|
    requires Targets(NextWorkers(s, e)[w], id) && IsFinished(Do(s, e).attempts, id)
    ensures Targets(s.workers[w], id) && id in s.attempts
  {
    if Targets(s.workers[w], id) {
      TargetWasCommitted(s, e, w, id);
    } else {
      NewTargetIsOpen(s, e, w, id);
    }
  }

  lemma LocksAt(n: nat, r: Run, i: nat)
    requires IsRun(n, r) && i <= |r.events|
    ensures LocksOk(r.states[i]) && |r.states[i].workers| == n
  {
    InvariantsAt(n, r, i);
  }

  lemma TargetOneStepBack(n: nat, r: Run, i: nat, w: WorkerId, id: AttemptId)
    requires IsRun(n, r) && i < |r.events| && w < |r.states[i + 1].workers|
    requires Targets(r.states[i + 1].workers[w], id) && IsFinished(r.states[i + 1].attempts, id)
    ensures w < |r.states[i].workers| && Targets(r.states[i].workers[w], id) && id in r.states[i].attempts
  {
    LocksAt(n, r, i);
    LocksAt(n, r, i + 1);
    assert Follows(r, i);
    StepKeepsTarget(r.states[i], r.events[i], w, id);
  }

  /** A targeted row that is finished as committed was polled by an earlier commit. */
  lemma {:induction false} FinishedTargetWasPolled(n: nat, r: Run, i: nat, w: WorkerId, id: AttemptId)
    requires IsRun(n, r) && i <= |r.events| && w < |r.states[i].workers|
    requires Targets(r.states[i].workers[w], id) && IsFinished(r.states[i].attempts, id)
    ensures PolledBefore(r, i, id)
  {
    if i > 0 {
      TargetOneStepBack(n, r, i - 1, w, id);
      StepTouchesPolledRow(n, r, i - 1, id);
      if !PolledAt(r, i - 1, id) {
        FinishedTargetWasPolled(n, r, i - 1, w, id);
      }
    }
  }

  /** The commit of a transaction that polled a row, its own or another, finishes it. */
  lemma PollingFinishes(attempts: Table, o: WakeOrder, log: Log, id: AttemptId)
    requires IsComplete(o, log) && Polls(log, id) && (id == log[0].id || id in attempts)
    ensures IsFinished(Apply(attempts, log), id)
  {
    ApplyShort(attempts, log);
  }

  lemma {:induction false} PolledRowIsFinished(n: nat, r: Run, l: nat, k: nat, id: AttemptId)
    requires IsRun(n, r) && l < k <= |r.events| && PolledAt(r, l, id)
    ensures IsFinished(r.states[k].attempts, id)
    decreases k
  {
    if k == l + 1 {
      LocksAt(n, r, l);
      assert Follows(r, l);
      var s := r.states[l];
      var wk := s.workers[r.events[l].w];
      assert WorkerShaped(wk) && RowsOk(s.attempts, wk);
      PollingFinishes(s.attempts, wk.order, wk.log, id);
    } else {
      PolledRowIsFinished(n, r, l, k - 1, id);
      StepTouchesPolledRow(n, r, k - 1, id);
    }
  }

  /** A commit rewrites an attempt that is finished in the committed table if and only if an earlier commit has polled
      the same attempt. */
  lemma CommitRewritesIffPolledBefore(n: nat, r: Run, k: nat, id: AttemptId)
    requires IsRun(n, r) && k < |r.events| && PolledAt(r, k, id)
    ensures id in r.states[k].attempts && r.states[k].attempts[id].status.IsTerminal()
            <==> exists l :: 0 <= l < k && PolledAt(r, l, id)
  {
    if IsFinished(r.states[k].attempts, id) {
      FinishedTargetWasPolled(n, r, k, r.events[k].w, id);
    }
    if l :| 0 <= l < k && PolledAt(r, l, id) {
      PolledRowIsFinished(n, r, l, k, id);
    }
  }

  /** Between such commits a finished attempt keeps every column, whatever the number of workers. */
  lemma {:induction false} FinishedUntilPolledAgain(n: nat, r: Run, i: nat, k: nat, id: AttemptId)
    requires IsRun(n, r) && i <= k <= |r.events| && IsFinished(r.states[i].attempts, id)
    requires forall l :: i <= l < k ==> !PolledAt(r, l, id)
    ensures id in r.states[k].attempts && r.states[k].attempts[id] == r.states[i].attempts[id]
    decreases k
  {
    if i < k {
      FinishedUntilPolledAgain(n, r, i, k - 1, id);
      StepTouchesPolledRow(n, r, k - 1, id);
    }
  }

  /** The same for statements, committed or not: one rewrites an attempt that its session sees as finished if and only
      if it is the first write to the polled row, that row is another transaction's, and an earlier commit has polled
      it too. */
  lemma OverwritesIffPolledBefore(n: nat, r: Run, i: nat, w: WorkerId, a: Action)
    requires IsRun(n, r) && i < |r.events| && r.events[i] == Act(w, a)
    ensures w < |r.states[i].workers| && r.states[i].workers[w].Processing? && ActionInPlace(r.states[i].workers[w], a)
    ensures var phase := r.states[i].workers[w].phase;
            Overwrites(r.states[i], w, a) <==>
            (a.StartPolling? || a.MachineMissing?) && phase.target != phase.own && PolledBefore(r, i, phase.target)
  {
    OnlyFirstPollWriteOverwrites(n, r, i, w, a);
    if a.StartPolling? || a.MachineMissing? {
      var target := r.states[i].workers[w].phase.target;
      if IsFinished(r.states[i].attempts, target) {
        FinishedTargetWasPolled(n, r, i, w, target);
      }
      if l :| 0 <= l < i && PolledAt(r, l, target) {
        PolledRowIsFinished(n, r, l, i, target);
      }
    }
  }
}
