/** Which status histories the pipeline commits, compared with the transition table no write consults. */
module Histories {
  import opened AttemptStatuses
  import opened AttemptTable
  import opened Payloads
  import opened Pipeline
  import opened AttemptInvariants

  /** Every row's statuses, in the order they were written, follow the transition table. */
  ghost predicate AllLegal(log: Log) {
    forall id :: IsPath(History(log, id))
  }

  /** The guard `update_status` does not have: the row the job polled may take the first status the job wrote to it. */
  predicate MayPublish(attempts: Table, log: Log) {
    |log| <= 2 || log[2].id == log[0].id ||
    (log[2].Update? && log[2].id in attempts && attempts[log[2].id].status.CanTransitionTo(log[2].status))
  }

  lemma HistoryFront(a: Log, b: Log, id: AttemptId)
    requires b != []
    ensures History(a + b, id) == Note(History(a + b[..|b| - 1], id), b[|b| - 1], id)
  {
    assert (a + b)[..|a + b| - 1] == a + b[..|b| - 1];
  }

  /** What a short log adds to a history, write by write. */
  lemma HistoryShort(a: Log, b: Log, id: AttemptId)
    ensures b == [] ==> History(a + b, id) == History(a, id)
    ensures |b| == 1 ==> History(a + b, id) == Note(History(a, id), b[0], id)
    ensures |b| == 2 ==> History(a + b, id) == Note(Note(History(a, id), b[0], id), b[1], id)
    ensures |b| == 3 ==> History(a + b, id) == Note(Note(Note(History(a, id), b[0], id), b[1], id), b[2], id)
    ensures |b| == 4 ==> History(a + b, id) == Note(Note(Note(Note(History(a, id), b[0], id), b[1], id), b[2], id), b[3], id)
  {
    if b == [] {
      assert a + b == a;
    } else if |b| <= 4 {
      HistoryFront(a, b, id);
      HistoryShort(a, b[..|b| - 1], id);
    }
  }

  /** A new row's history is a path: what a job does to its own row is always legal. */
  lemma OwnHistoryIsLegal(past: Log, o: WakeOrder, log: Log)
    requires IsComplete(o, log) && log != [] && History(past, log[0].id) == []
    ensures IsPath(History(past + log, log[0].id))
  {
    HistoryShort(past, log, log[0].id);
  }

  /** On the polled row of another transaction, the commit is legal exactly under the missing guard. */
  lemma TargetHistoryIsLegal(past: Log, o: WakeOrder, log: Log, id: AttemptId)
    requires IsComplete(o, log) && |log| >= 3 && id == log[2].id && id != log[0].id
    requires History(past, id) != []
    ensures var h := History(past, id);
            IsPath(History(past + log, id)) <==> IsPath(h) && h[|h| - 1].CanTransitionTo(log[2].status)
  {
    var h := History(past, id);
    HistoryShort(past, log, id);
    if |log| == 3 {
      PathExtends(h, [log[2].status]);
    } else {
      var t := [log[2].status, log[3].status];
      assert IsPath(t);
      assert h + t == h + [log[2].status] + [log[3].status];
      PathExtends(h, t);
    }
  }

  lemma OtherHistoryIsUnchanged(past: Log, o: WakeOrder, log: Log, id: AttemptId)
    requires IsComplete(o, log) && (log == [] || id != log[0].id) && (|log| < 3 || id != log[2].id)
    ensures History(past + log, id) == History(past, id)
  {
    HistoryShort(past, log, id);
  }

  /** What one worker's commit does to the legality of all histories. */
  lemma CommitLegality(past: Log, o: WakeOrder, log: Log)
    requires IsComplete(o, log)
    requires log != [] ==> log[0].id !in Apply(map[], past)
    requires |log| >= 3 ==> log[2].id == log[0].id || log[2].id in Apply(map[], past)
    ensures AllLegal(past + log) <==> AllLegal(past) && MayPublish(Apply(map[], past), log)
  {
    forall id
      ensures (log == [] || id != log[0].id) && (|log| < 3 || id != log[2].id) ==> History(past + log, id) == History(past, id)
      ensures log != [] && id == log[0].id ==> IsPath(History(past + log, id)) && IsPath(History(past, id))
      ensures |log| >= 3 && id == log[2].id && id != log[0].id ==>
                (IsPath(History(past + log, id)) <==> IsPath(History(past, id)) && MayPublish(Apply(map[], past), log))
    {
      StatusIsLastWritten(past, id);
      if log != [] && id == log[0].id {
        OwnHistoryIsLegal(past, o, log);
      } else if |log| >= 3 && id == log[2].id {
        TargetHistoryIsLegal(past, o, log, id);
      } else {
        OtherHistoryIsUnchanged(past, o, log, id);
      }
    }
    if AllLegal(past + log) {
      if |log| >= 3 && log[2].id != log[0].id {
        assert IsPath(History(past + log, log[2].id));
      }
      forall id
        ensures IsPath(History(past, id))
      {
        assert IsPath(History(past + log, id));
      }
    }
  }

  /** The rows the API commits are new, and start legally. */
  lemma ApiLegality(s: State, e: Event)
    requires Enabled(s, e) && !e.Commit? && s.attempts == Apply(map[], Writes(s.ledger))
    ensures AllLegal(Writes(s.ledger) + Published(s, e)) <==> AllLegal(Writes(s.ledger))
  {
    var past, log := Writes(s.ledger), Published(s, e);
    forall id
      ensures History(past + log, id) == History(past, id) || (IsPath(History(past + log, id)) && IsPath(History(past, id)))
    {
      HistoryShort(past, log, id);
      StatusIsLastWritten(past, id);
    }
    if AllLegal(past + log) {
      forall id ensures IsPath(History(past, id)) { assert IsPath(History(past + log, id)); }
    }
  }

  lemma StepLegality(s: State, e: Event)
    requires Enabled(s, e) && AttemptInv(s)
    ensures AllLegal(Writes(Do(s, e).ledger)) <==>
            AllLegal(Writes(s.ledger)) && (e.Commit? ==> MayPublish(s.attempts, s.workers[e.w].log))
  {
    WritesAppend(s.ledger, Publisher(s, e), Published(s, e));
    if e.Commit? {
      var wk := s.workers[e.w];
      assert WorkerShaped(wk) && RowsOk(s.attempts, wk);
      CommitLegality(Writes(s.ledger), wk.order, wk.log);
    } else {
      ApiLegality(s, e);
    }
  }

  /** The transaction committed by step `i` of a run, if it is a worker's commit, passes the guard. */
  predicate GuardHoldsAt(r: Run, i: nat)
    requires i < |r.events| && i < |r.states|
  {
    var s, e := r.states[i], r.events[i];
    e.Commit? && e.w < |s.workers| && s.workers[e.w].Committing? ==> MayPublish(s.attempts, s.workers[e.w].log)
  }

  lemma LegalityAt(n: nat, r: Run, i: nat)
    requires IsRun(n, r) && i < |r.events|
    ensures AllLegal(Writes(r.states[i + 1].ledger)) <==> AllLegal(Writes(r.states[i].ledger)) && GuardHoldsAt(r, i)
  {
    InvariantsAt(n, r, i);
    assert Follows(r, i);
    StepLegality(r.states[i], r.events[i]);
  }

  /** For any number of workers and any run: every committed status history follows the transition table if and only
      if, at each worker commit, the polled row as committed could take the first status the worker wrote to it. No
      other write of the pipeline can break the table. */
  lemma {:induction false} LegalIffGuarded(n: nat, r: Run, k: nat)
    requires IsRun(n, r) && k <= |r.events|
    ensures AllLegal(Writes(r.states[k].ledger)) <==> forall i :: 0 <= i < k ==> GuardHoldsAt(r, i)
  {
    if k == 0 {
      assert Writes([]) == [];
      assert forall id :: History([], id) == [];
    } else {
      LegalIffGuarded(n, r, k - 1);
      LegalityAt(n, r, k - 1);
    }
  }
}
