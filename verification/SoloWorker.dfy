/** What more holds when, as deployed, a single worker serves the queue. */
module SoloWorker {
  import opened AttemptStatuses
  import opened AttemptTable
  import opened Pipeline
  import opened JobInvariants
  import opened AttemptInvariants
  import opened Histories
  import opened PipelineTheorems

  predicate AllConsistent(t: Table) {
    forall id :: id in t ==> Consistent(t[id])
  }

  /** The row being polled, if it is not the worker's own, is committed and still unfinished. */
  predicate TargetOpen(attempts: Table, wk: Worker) {
    var log := LogOf(wk);
    && (wk.Processing? && wk.phase.Picked? && wk.phase.target != wk.phase.own ==>
          wk.phase.target in attempts && IsActive(attempts[wk.phase.target]))
    && (|log| >= 3 && log[2].id != log[0].id ==> log[2].id in attempts && IsActive(attempts[log[2].id]))
  }

  /** A row that is finished is not changed. */
  predicate Frozen(before: Table, after: Table) {
    forall id :: id in before && !IsActive(before[id]) ==> id in after && after[id] == before[id]
  }

  /** The write inserts a row as `create` makes it, or takes an unfinished row to a status with what belongs to it. */
  predicate IsOrderly(t: Table, w: Write) {
    if w.Insert? then w.id !in t && IsNewRow(w.row)
    else
      && w.id in t && IsActive(t[w.id])
      && (w == SentWrite(w.id) || w == WakingWrite(w.id) || IsFailure(w, w.id) || IsOutcome(w, w.id))
  }

  lemma OrderlyWriteKeepsConsistent(t: Table, w: Write)
    requires AllConsistent(t) && IsOrderly(t, w)
    ensures AllConsistent(Write1(t, w)) && Frozen(t, Write1(t, w))
  {
  }

  lemma CommitKeepsConsistent(t: Table, wk: Worker)
    requires wk.Committing? && WorkerShaped(wk) && RowsOk(t, wk) && AllConsistent(t) && TargetOpen(t, wk)
    ensures AllConsistent(Apply(t, wk.log)) && Frozen(t, Apply(t, wk.log))
  {
    var log := wk.log;
    ApplyShort(t, log);
    if |log| >= 1 {
      OrderlyWriteKeepsConsistent(t, log[0]);
      var t1 := Write1(t, log[0]);
      if |log| >= 2 {
        OrderlyWriteKeepsConsistent(t1, log[1]);
        var t2 := Write1(t1, log[1]);
        if |log| >= 3 {
          OrderlyWriteKeepsConsistent(t2, log[2]);
          if |log| >= 4 {
            OrderlyWriteKeepsConsistent(Write1(t2, log[2]), log[3]);
          }
        }
      }
    }
  }

  predicate SoloInv(s: State) {
    && |s.workers| == 1 && JobInv(s) && AttemptInv(s)
    && AllConsistent(s.attempts) && TargetOpen(s.attempts, s.workers[0])
  }

  lemma ActKeepsTargetOpen(s: State, a: Action)
    requires |s.workers| == 1 && s.workers[0].Processing? && ActionInPlace(s.workers[0], a) && ActionGuard(s, 0, a)
    requires WorkerShaped(s.workers[0]) && RowsOk(s.attempts, s.workers[0]) && TargetOpen(s.attempts, s.workers[0])
    ensures TargetOpen(s.attempts, Acted(s.workers[0], a))
  {
    FallbackIsDisabled(s, 0, a);
    if a.Pick? {
      ViewKeys(s, 0);
      ApplyShort(s.attempts, s.workers[0].log);
    }
  }

  lemma ApiKeepsConsistent(s: State, e: Event)
    requires Enabled(s, e) && Actor(e).None? && AllConsistent(s.attempts)
    ensures AllConsistent(Do(s, e).attempts) && Frozen(s.attempts, Do(s, e).attempts)
  {
    var t, log := s.attempts, Published(s, e);
    ApplyShort(t, log);
    if |log| >= 1 {
      OrderlyWriteKeepsConsistent(t, log[0]);
      if |log| >= 2 {
        OrderlyWriteKeepsConsistent(Write1(t, log[0]), log[1]);
      }
    }
  }

  lemma ApiKeepsTargetOpen(s: State, e: Event)
    requires Enabled(s, e) && Actor(e).None? && |s.workers| == 1 && TargetOpen(s.attempts, s.workers[0])
    ensures TargetOpen(Do(s, e).attempts, s.workers[0])
  {
    ApplyFrame(s.attempts, Published(s, e));
    if e.PostWake? || e.DirectWake? {
      assert Touched(Published(s, e)) == {e.row};
    }
  }

  lemma StepKeepsTargetOpen(s: State, e: Event)
    requires Enabled(s, e) && |s.workers| == 1 && LocksOk(s) && AllConsistent(s.attempts) && TargetOpen(s.attempts, s.workers[0])
    ensures AllConsistent(Do(s, e).attempts) && Frozen(s.attempts, Do(s, e).attempts)
    ensures TargetOpen(Do(s, e).attempts, NextWorkers(s, e)[0])
  {
    var wk := s.workers[0];
    assert WorkerShaped(wk) && RowsOk(s.attempts, wk);
    if Actor(e).None? {
      ApiKeepsConsistent(s, e);
      ApiKeepsTargetOpen(s, e);
    } else if e.Commit? {
      CommitKeepsConsistent(s.attempts, wk);
    } else if e.Act? {
      ActKeepsTargetOpen(s, e.action);
    }
  }

  lemma {:induction false} SoloAt(r: Run, i: nat)
    requires IsRun(1, r) && i <= |r.events|
    ensures SoloInv(r.states[i])
    ensures i > 0 ==> Frozen(r.states[i - 1].attempts, r.states[i].attempts)
  {
    InvariantsAt(1, r, i);
    if i > 0 {
      SoloAt(r, i - 1);
      assert Follows(r, i - 1);
      StepKeepsTargetOpen(r.states[i - 1], r.events[i - 1]);
    }
  }

  /** In every committed state the finish time is set exactly when the attempt is finished, and the error exactly
      when it failed or timed out. */
  lemma SoloAttemptsConsistent(r: Run, i: nat, id: AttemptId)
    requires IsRun(1, r) && i <= |r.events| && id in r.states[i].attempts
    ensures var row := r.states[i].attempts[id];
            && (row.finishedAt.Some? <==> row.status in {Online, Failed, Timeout})
            && (row.error.Some? <==> row.status in {Failed, Timeout})
  {
    SoloAt(r, i);
  }

  /** A finished attempt keeps every column for the rest of the run, although no UPDATE checks the status. */
  lemma {:induction false} SoloFinishedIsFinal(r: Run, i: nat, k: nat, id: AttemptId)
    requires IsRun(1, r) && i <= k <= |r.events|
    requires id in r.states[i].attempts && r.states[i].attempts[id].status.IsTerminal()
    ensures id in r.states[k].attempts && r.states[k].attempts[id] == r.states[i].attempts[id]
    decreases k
  {
    if i < k {
      SoloFinishedIsFinal(r, i, k - 1, id);
      SoloAt(r, k);
    }
  }

  /** Not even inside its open transaction does the worker write to a finished attempt. */
  lemma SoloNeverOverwrites(r: Run, i: nat, w: WorkerId, a: Action)
    requires IsRun(1, r) && i < |r.events| && r.events[i] == Act(w, a)
    ensures w == 0 && |r.states[i].workers| == 1 && r.states[i].workers[0].Processing?
    ensures ActionInPlace(r.states[i].workers[0], a) && !Overwrites(r.states[i], 0, a)
  {
    SoloAt(r, i);
    assert Follows(r, i);
    OnlyFirstPollWriteOverwrites(1, r, i, w, a);
  }

  /** Step `i` commits a transaction that took a row of another transaction from PENDING straight to WAKING. */
  predicate PollsPendingAt(r: Run, i: nat)
    requires i < |r.events| && i < |r.states|
  {
    var s, e := r.states[i], r.events[i];
    && e.Commit? && e.w < |s.workers| && s.workers[e.w].Committing?
    && var log := s.workers[e.w].log;
       && |log| > 2 && log[2] == WakingWrite(log[2].id) && log[2].id != log[0].id
       && log[2].id in s.attempts && s.attempts[log[2].id].status == Pending
  }

  lemma GuardMeansNotPending(r: Run, i: nat)
    requires IsRun(1, r) && i < |r.events|
    ensures GuardHoldsAt(r, i) <==> !PollsPendingAt(r, i)
  {
    SoloAt(r, i);
    var s, e := r.states[i], r.events[i];
    if e.Commit? && e.w < |s.workers| && s.workers[e.w].Committing? {
      assert WorkerShaped(s.workers[e.w]) && TargetOpen(s.attempts, s.workers[e.w]);
    }
  }

  /** With one worker the committed histories follow the transition table if and only if no committed job polled
      somebody else's attempt that was still PENDING. */
  lemma SoloLegalUnlessPendingPolled(r: Run, k: nat)
    requires IsRun(1, r) && k <= |r.events|
    ensures AllLegal(Writes(r.states[k].ledger)) <==> forall i :: 0 <= i < k ==> !PollsPendingAt(r, i)
  {
    LegalIffGuarded(1, r, k);
    forall i | 0 <= i < k
      ensures GuardHoldsAt(r, i) <==> !PollsPendingAt(r, i)
    {
      GuardMeansNotPending(r, i);
    }
  }
}
