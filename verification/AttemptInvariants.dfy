/** The wake_attempts table under any number of workers: what a job's transaction contains, and what its commit
    publishes. */
module AttemptInvariants {
  import opened Wrappers
  import opened AttemptStatuses
  import opened AttemptTable
  import opened Payloads
  import opened Pipeline
  import opened JobInvariants

  // ---- The shape of a job's transaction ----

  predicate Opens(o: WakeOrder, log: Log) {
    log != [] && log[0].Insert? && IsRowFor(o, log[0].row)
  }

  /** The row was made and its packet sent, which needs a strategy. */
  predicate OpensAndSends(o: WakeOrder, log: Log) {
    |log| >= 2 && Opens(o, log) && IsKnownStrategy(log[0].row.strategy) && log[1] == SentWrite(log[0].id)
  }

  predicate IsFailure(w: Write, id: AttemptId) {
    w.Update? && w.id == id && w.status == Failed && w.error.Some? && w.finishedAt.Some?
  }

  predicate IsOutcome(w: Write, id: AttemptId) {
    && w.Update? && w.id == id && w.finishedAt.Some?
    && ((w.status == Online && w.error == None) || (w.status == Timeout && w.error.Some?))
  }

  /** The transactions `_process_job` can leave behind: none of its statements, a row that got no strategy, a row
      that was sent or failed to be sent; and when the order asks for polling, after a row was sent, some row that
      lost its machine, or went to WAKING and on to ONLINE or TIMEOUT. */
  predicate IsComplete(o: WakeOrder, log: Log) {
    log == [] ||
    (Opens(o, log) &&
     var own := log[0].id;
     match |log|
     case 1 => !IsKnownStrategy(log[0].row.strategy)
     case 2 => IsKnownStrategy(log[0].row.strategy) && (IsFailure(log[1], own) || (log[1] == SentWrite(own) && !o.ensureOnline))
     case 3 => o.ensureOnline && OpensAndSends(o, log) && IsFailure(log[2], log[2].id) && log[2].error == Some(MACHINE_GONE)
     case 4 => o.ensureOnline && OpensAndSends(o, log) && log[2] == WakingWrite(log[2].id) && IsOutcome(log[3], log[2].id)
     case _ => false)
  }

  predicate IsShaped(o: WakeOrder, log: Log, p: Phase) {
    match p
    case Begin => log == []
    case Created(own) => |log| == 1 && Opens(o, log) && log[0].id == own
    case Woken(own) => |log| == 2 && OpensAndSends(o, log) && log[0].id == own
    case Picked(own, _) => o.ensureOnline && |log| == 2 && OpensAndSends(o, log) && log[0].id == own
    case Polling(own, target) =>
      o.ensureOnline && |log| == 3 && OpensAndSends(o, log) && log[0].id == own && log[2] == WakingWrite(target)
    case Finished => IsComplete(o, log)
  }

  predicate WorkerShaped(wk: Worker) {
    (wk.Processing? ==> IsShaped(wk.order, wk.log, wk.phase)) && (wk.Committing? ==> IsComplete(wk.order, wk.log))
  }

  /** A short log applied, write by write. */
  lemma ApplyShort(t: Table, log: Log)
    ensures |log| == 1 ==> Apply(t, log) == Write1(t, log[0])
    ensures |log| == 2 ==> Apply(t, log) == Write1(Write1(t, log[0]), log[1])
    ensures |log| == 3 ==> Apply(t, log) == Write1(Write1(Write1(t, log[0]), log[1]), log[2])
    ensures |log| == 4 ==> Apply(t, log) == Write1(Write1(Write1(Write1(t, log[0]), log[1]), log[2]), log[3])
  {
    if 1 <= |log| <= 4 {
      assert log[..|log| - 1] + [log[|log| - 1]] == log;
      ApplyConcat(t, log[..|log| - 1], [log[|log| - 1]]);
      assert Apply(Apply(t, log[..|log| - 1]), [log[|log| - 1]]) == Write1(Apply(t, log[..|log| - 1]), log[|log| - 1]);
      if |log| > 1 {
        ApplyShort(t, log[..|log| - 1]);
      }
    }
  }

  /** After WakeService.wake succeeded the session sees its own row, sent and not finished, whatever else is in the table. */
  lemma SentRowIsVisible(t: Table, o: WakeOrder, log: Log)
    requires |log| == 2 && Opens(o, log) && log[1] == SentWrite(log[0].id)
    ensures log[0].id in Apply(t, log)
    ensures var row := Apply(t, log)[log[0].id];
            row == log[0].row.(status := Sent) && IsActiveFor(Apply(t, log), o.machine, log[0].id)
  {
    ApplyShort(t, log);
  }

  // ---- Row locks and visibility ----

  predicate Disjoint(a: Log, b: Log) {
    Touched(a) !! Touched(b)
  }

  /** A worker's own row is not committed yet, and the row it polls is one it can see. */
  predicate RowsOk(attempts: Table, wk: Worker) {
    var log := LogOf(wk);
    && (log != [] ==> log[0].id !in attempts)
    && (|log| >= 3 ==> log[2].id == log[0].id || log[2].id in attempts)
    && (wk.Processing? && wk.phase.Picked? ==> wk.phase.target == wk.phase.own || wk.phase.target in attempts)
  }

  predicate LocksOk(s: State) {
    && (forall w :: 0 <= w < |s.workers| ==> WorkerShaped(s.workers[w]) && RowsOk(s.attempts, s.workers[w]))
    && (forall v, w :: 0 <= v < w < |s.workers| ==> Disjoint(LogOf(s.workers[v]), LogOf(s.workers[w])))
  }

  /** The rows a worker can see are the committed ones and its own. */
  lemma ViewKeys(s: State, w: WorkerId)
    requires w < |s.workers| && s.workers[w].Processing? && WorkerShaped(s.workers[w])
    requires s.workers[w].phase.Woken? || s.workers[w].phase.Picked?
    ensures View(s, w).Keys == s.attempts.Keys + {s.workers[w].phase.own}
  {
    ApplyShort(s.attempts, s.workers[w].log);
  }

  /** The fallback to the payload's attempt id, and the branch for an attempt that is gone, are never taken: after a
      successful wake the session sees at least its own row as active, and a row once picked stays visible. */
  lemma FallbackIsDisabled(s: State, w: WorkerId, a: Action)
    requires w < |s.workers| && s.workers[w].Processing? && ActionInPlace(s.workers[w], a) && ActionGuard(s, w, a)
    requires WorkerShaped(s.workers[w]) && RowsOk(s.attempts, s.workers[w])
    ensures !a.PickNone? && !a.AttemptMissing?
  {
    var wk := s.workers[w];
    if wk.phase.Woken? {
      SentRowIsVisible(s.attempts, wk.order, wk.log);
      assert IsActiveFor(View(s, w), wk.order.machine, wk.log[0].id);
    } else if wk.phase.Picked? {
      ViewKeys(s, w);
    }
  }

  lemma ActKeepsShape(s: State, w: WorkerId, a: Action)
    requires w < |s.workers| && s.workers[w].Processing? && ActionInPlace(s.workers[w], a) && ActionGuard(s, w, a)
    requires WorkerShaped(s.workers[w]) && RowsOk(s.attempts, s.workers[w])
    ensures WorkerShaped(Acted(s.workers[w], a))
  {
    FallbackIsDisabled(s, w, a);
    var wk := s.workers[w];
    if a.UnknownStrategy? || a.Send? || a.SendFails? {
      ApplyShort(s.attempts, wk.log);
    }
  }

  lemma ActKeepsRows(s: State, w: WorkerId, a: Action)
    requires w < |s.workers| && s.workers[w].Processing? && ActionInPlace(s.workers[w], a) && ActionGuard(s, w, a)
    requires WorkerShaped(s.workers[w]) && RowsOk(s.attempts, s.workers[w])
    ensures RowsOk(s.attempts, Acted(s.workers[w], a))
  {
    FallbackIsDisabled(s, w, a);
    if a.Pick? || a.StartPolling? || a.MachineMissing? {
      ViewKeys(s, w);
    }
  }

  /** An action writes only a fresh row, its own row, or a row no other transaction has locked. */
  lemma ActLocksFreeRow(s: State, w: WorkerId, a: Action, v: WorkerId)
    requires w < |s.workers| && s.workers[w].Processing? && ActionInPlace(s.workers[w], a) && ActionGuard(s, w, a)
    requires v < |s.workers| && v != w && WorkerShaped(s.workers[w])
    requires Disjoint(LogOf(s.workers[w]), LogOf(s.workers[v]))
    ensures Disjoint(Acted(s.workers[w], a).log, LogOf(s.workers[v]))
  {
    var wk, other := s.workers[w], LogOf(s.workers[v]);
    if !a.WakeDbError? {
      forall x | x in wk.log + Statement(wk, a)
        ensures x.id !in Touched(other)
      {
        if x in wk.log {
          assert x.id in Touched(wk.log);
        } else if a.Send? || a.SendFails? {
          assert wk.log[0] in wk.log && x.id == wk.log[0].id && x.id in Touched(wk.log);
        } else if a.ComesOnline? || a.TimesOut? {
          assert wk.log[2] in wk.log && x.id == wk.log[2].id && x.id in Touched(wk.log);
        }
      }
    }
  }

  /** What a step publishes is apart from every other open transaction. */
  lemma PublishesApart(s: State, e: Event, v: WorkerId)
    requires Enabled(s, e) && LocksOk(s) && v < |s.workers| && Actor(e) != Some(v)
    ensures Disjoint(Published(s, e), LogOf(s.workers[v]))
  {
    if e.Commit? {
      assert Disjoint(LogOf(s.workers[e.w]), LogOf(s.workers[v])) || Disjoint(LogOf(s.workers[v]), LogOf(s.workers[e.w]));
    }
  }

  lemma OthersKeepRows(s: State, e: Event, v: WorkerId)
    requires Enabled(s, e) && LocksOk(s) && v < |s.workers| && Actor(e) != Some(v)
    ensures RowsOk(Apply(s.attempts, Published(s, e)), s.workers[v])
  {
    PublishesApart(s, e, v);
    ApplyFrame(s.attempts, Published(s, e));
    var log := LogOf(s.workers[v]);
    if log != [] {
      assert log[0] in log && log[0].id in Touched(log);
    }
  }

  lemma ActorKeepsRows(s: State, e: Event)
    requires Enabled(s, e) && LocksOk(s) && Actor(e).Some?
    ensures WorkerShaped(NextWorker(s, e)) && RowsOk(Apply(s.attempts, Published(s, e)), NextWorker(s, e))
  {
    var w := Actor(e).value;
    assert WorkerShaped(s.workers[w]) && RowsOk(s.attempts, s.workers[w]);
    if e.Act? {
      ActKeepsShape(s, w, e.action);
      ActKeepsRows(s, w, e.action);
    }
  }

  lemma StepKeepsDisjoint(s: State, e: Event, v: WorkerId, w: WorkerId)
    requires Enabled(s, e) && LocksOk(s) && v < w < |s.workers|
    ensures Disjoint(LogOf(NextWorkers(s, e)[v]), LogOf(NextWorkers(s, e)[w]))
  {
    assert Disjoint(LogOf(s.workers[v]), LogOf(s.workers[w]));
    if e.Act? && e.w == v {
      ActLocksFreeRow(s, v, e.action, w);
    } else if e.Act? && e.w == w {
      ActLocksFreeRow(s, w, e.action, v);
    }
  }

  lemma StepKeepsLocks(s: State, e: Event)
    requires Enabled(s, e) && LocksOk(s)
    ensures LocksOk(Do(s, e))
  {
    var s' := Do(s, e);
    forall w | 0 <= w < |s'.workers|
      ensures WorkerShaped(s'.workers[w]) && RowsOk(s'.attempts, s'.workers[w])
    {
      if Actor(e) == Some(w) {
        ActorKeepsRows(s, e);
      } else {
        OthersKeepRows(s, e, w);
      }
    }
    forall v, w | 0 <= v < w < |s'.workers|
      ensures Disjoint(LogOf(s'.workers[v]), LogOf(s'.workers[w]))
    {
      StepKeepsDisjoint(s, e, v, w);
    }
  }

  // ---- What is committed ----

  /** The job is done, and no worker holds it any more. */
  predicate IsSettled(s: State, j: JobId) {
    j in s.jobs && s.jobs[j].status == Done && IsUnheld(s.workers, j)
  }

  predicate IsUnheld(workers: seq<Worker>, j: JobId) {
    forall w :: 0 <= w < |workers| && !workers[w].Idle? ==> workers[w].job != j
  }

  /** The committed table is the replay of the ledger; and whatever a job has published, it published as a done job
      that no worker holds any more. */
  predicate LedgerOk(s: State) {
    && s.attempts == Apply(map[], Writes(s.ledger))
    && (forall x :: x in s.ledger && x.source.ByJob? ==> IsSettled(s, x.source.job))
  }

  predicate NoWaking(t: Table) {
    forall id :: id in t ==> t[id].status != Waking
  }

  /** A complete transaction never leaves a row WAKING: the WAKING write is always followed by a terminal one. */
  lemma CompleteLeavesNoWaking(t: Table, o: WakeOrder, log: Log)
    requires IsComplete(o, log) && NoWaking(t)
    ensures NoWaking(Apply(t, log))
  {
    ApplyShort(t, log);
  }

  lemma WritesAppend(ledger: seq<Entry>, source: Source, log: Log)
    ensures Writes(ledger + Tagged(source, log)) == Writes(ledger) + log
  {
  }

  predicate AttemptInv(s: State) {
    LocksOk(s) && LedgerOk(s) && NoWaking(s.attempts)
  }

  lemma StepKeepsReplay(s: State, e: Event)
    requires InPlace(s, e) && s.attempts == Apply(map[], Writes(s.ledger))
    ensures Do(s, e).attempts == Apply(map[], Writes(Do(s, e).ledger))
  {
    WritesAppend(s.ledger, Publisher(s, e), Published(s, e));
    ApplyConcat(map[], Writes(s.ledger), Published(s, e));
  }

  lemma NextWorkerKeepsJob(s: State, e: Event)
    requires InPlace(s, e) && Actor(e).Some? && !e.Lock?
    ensures NextWorker(s, e).Idle? || NextWorker(s, e).job == s.workers[Actor(e).value].job
  {
  }

  lemma StepKeepsUnheld(s: State, e: Event, j: JobId)
    requires InPlace(s, e) && IsUnheld(s.workers, j) && (e.Lock? ==> e.id != j)
    ensures IsUnheld(NextWorkers(s, e), j)
  {
    if Actor(e).Some? && !e.Lock? {
      NextWorkerKeepsJob(s, e);
    }
  }

  lemma StepKeepsSettled(s: State, e: Event, j: JobId)
    requires InPlace(s, e) && JobGuard(s, e) && TableOk(s.jobs, s.requests, s.starts) && IsSettled(s, j)
    ensures IsSettled(Do(s, e), j)
  {
    StepTouchesOwnJob(s, e, j);
    StepKeepsUnheld(s, e, j);
  }

  /** The job of a committing worker is done, held by nobody else, and let go of by the commit. */
  lemma CommitSettles(s: State, e: Event)
    requires InPlace(s, e) && JobGuard(s, e) && JobInv(s) && e.Commit?
    ensures IsSettled(Do(s, e), s.workers[e.w].job)
  {
    assert HolderOk(s, s.workers[e.w]);
  }

  lemma StepKeepsLedger(s: State, e: Event)
    requires InPlace(s, e) && JobGuard(s, e) && JobInv(s) && LedgerOk(s)
    ensures LedgerOk(Do(s, e))
  {
    StepKeepsReplay(s, e);
    StepKeepsJobs(s, e);
    var s' := Do(s, e);
    forall x | x in s'.ledger && x.source.ByJob?
      ensures IsSettled(s', x.source.job)
    {
      if x in s.ledger {
        StepKeepsSettled(s, e, x.source.job);
      } else {
        assert x in Tagged(Publisher(s, e), Published(s, e)) && e.Commit?;
        CommitSettles(s, e);
      }
    }
  }

  lemma StepKeepsNoWaking(s: State, e: Event)
    requires Enabled(s, e) && LocksOk(s) && NoWaking(s.attempts)
    ensures NoWaking(Do(s, e).attempts)
  {
    if e.Commit? {
      var wk := s.workers[e.w];
      assert WorkerShaped(wk);
      CompleteLeavesNoWaking(s.attempts, wk.order, wk.log);
    } else {
      ApplyShort(s.attempts, Published(s, e));
    }
  }

  /** The invariants hold in every state of every run. */
  lemma {:induction false} InvariantsAt(n: nat, r: Run, i: nat)
    requires IsRun(n, r) && i <= |r.events|
    ensures JobInv(r.states[i]) && AttemptInv(r.states[i]) && |r.states[i].workers| == n
  {
    if i > 0 {
      var s, e := r.states[i - 1], r.events[i - 1];
      InvariantsAt(n, r, i - 1);
      assert Follows(r, i - 1);
      StepKeepsJobs(s, e);
      StepKeepsLocks(s, e);
      StepKeepsLedger(s, e);
      StepKeepsNoWaking(s, e);
    }
  }
}
