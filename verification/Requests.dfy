/** From a client's request to the rows it leads to, over whole runs. */
module Requests {
  import opened Wrappers
  import opened AttemptStatuses
  import opened AttemptTable
  import opened Payloads
  import opened Pipeline
  import opened AttemptInvariants
  import opened PipelineTheorems
  import opened Runs

  /** Step `i` is the POST /wake that made the attempt `row` for the request `q`. */
  predicate PostsAt(r: Run, i: nat, row: AttemptId, q: WakeRequest)
    requires i < |r.events|
  {
    r.events[i].PostWake? && r.events[i].row == row && r.events[i].request == q
  }

  lemma {:induction false} PendingIsPosted(n: nat, r: Run, k: nat, row: AttemptId)
    requires IsRun(n, r) && k <= |r.events| && row in r.states[k].pending
    ensures exists i :: 0 <= i < k && PostsAt(r, i, row, r.states[k].pending[row])
    ensures row in r.states[k].attempts
  {
    if k > 0 {
      assert Follows(r, k - 1);
      var s, e := r.states[k - 1], r.events[k - 1];
      ApplyFrame(s.attempts, Published(s, e));
      if e.PostWake? && e.row == row {
        assert PostsAt(r, k - 1, row, r.states[k].pending[row]);
        ApplyShort(s.attempts, Published(s, e));
      } else {
        PendingIsPosted(n, r, k - 1, row);
      }
    }
  }

  /** A job is enqueued for the request of an earlier POST /wake, and names the attempt that was committed then. */
  lemma EnqueuedIsPosted(n: nat, r: Run, k: nat)
    requires IsRun(n, r) && k < |r.events| && r.events[k].Enqueue?
    ensures r.events[k].id in r.states[k + 1].jobs && r.events[k].id in r.states[k + 1].requests
    ensures var job, q := r.states[k + 1].jobs[r.events[k].id], r.states[k + 1].requests[r.events[k].id];
            && job.attempt == r.events[k].row && job.attempt in r.states[k].attempts && job.payload == Encode(q)
            && job.status == Queued
            && exists i :: 0 <= i < k && PostsAt(r, i, job.attempt, q)
  {
    assert Follows(r, k);
    PendingIsPosted(n, r, k, r.events[k].row);
  }

  /** The request of the attempt has been enqueued: it is not pending, and its row is there. */
  lemma {:induction false} EnqueuedFrom(n: nat, r: Run, i: nat, k: nat)
    requires IsRun(n, r) && i < k <= |r.events| && r.events[i].Enqueue?
    ensures r.events[i].row !in r.states[k].pending && r.events[i].row in r.states[k].attempts
    decreases k
  {
    assert Follows(r, i) && Follows(r, k - 1);
    var s, e := r.states[k - 1], r.events[k - 1];
    ApplyFrame(s.attempts, Published(s, e));
    if k == i + 1 {
      PendingIsPosted(n, r, i, r.events[i].row);
    } else {
      EnqueuedFrom(n, r, i, k - 1);
    }
  }

  /** No attempt is enqueued twice. */
  lemma EnqueuedOnce(n: nat, r: Run, i: nat, k: nat)
    requires IsRun(n, r) && i < k < |r.events| && r.events[i].Enqueue? && r.events[k].Enqueue?
    ensures r.events[i].row != r.events[k].row
  {
    EnqueuedFrom(n, r, i, k);
    assert Follows(r, k);
  }

  /** What a job has committed begins with a new row for the machine, the polling and the timeout its client asked for, and
      for the strategy if the client named one. */
  lemma JobMakesRowOfRequest(n: nat, r: Run, i: nat, j: JobId)
    requires IsRun(n, r) && i <= |r.events| && j in r.states[i].jobs && OfJob(r.states[i].ledger, j) != []
    ensures j in r.states[i].requests && OfJob(r.states[i].ledger, j)[0].Insert?
    ensures var q, row := r.states[i].requests[j], OfJob(r.states[i].ledger, j)[0].row;
            && row.machine == q.machine && row.ensureOnline == q.ensureOnline && row.pollTimeout == q.pollTimeout
            && row.status == Pending && row.error == None && row.finishedAt == None
            && (q.strategy == Some(Etherwake) ==> row.strategy == "etherwake")
            && (q.strategy == Some(UdpBroadcast) ==> row.strategy == "udp_broadcast")
  {
    JobPublishesOneTransaction(n, r, i, j);
    DecodeEncode(r.states[i].requests[j]);
    KnownStrategies("etherwake");
  }

  /** POST /wake/direct leaves its row SENT. */
  lemma DirectWakeLeavesSentRow(n: nat, r: Run, i: nat)
    requires IsRun(n, r) && i < |r.events| && r.events[i].DirectWake?
    ensures var e, after := r.events[i], r.states[i + 1].attempts;
            && after.Keys == r.states[i].attempts.Keys + {e.row} && e.row !in r.states[i].attempts
            && after[e.row] == e.attempt.(status := Sent)
            && e.attempt.status == Pending && e.attempt.error == None && e.attempt.finishedAt == None
  {
    assert Follows(r, i);
    ApplyShort(r.states[i].attempts, Published(r.states[i], r.events[i]));
  }

  /** And it can do so at any time, with any fresh row that has a known strategy. */
  lemma DirectWakePlays(s: State, row: AttemptId, attempt: Attempt)
    requires FreshAttempt(s, row) && IsNewRow(attempt) && IsKnownStrategy(attempt.strategy)
    ensures Play(s, [DirectWake(row, attempt)]).Some?
    ensures var s' := Play(s, [DirectWake(row, attempt)]).value;
            s'.attempts == s.attempts[row := attempt.(status := Sent)] && s'.jobs == s.jobs && s'.workers == s.workers
  {
    PlayOne(s, DirectWake(row, attempt));
    ApplyShort(s.attempts, Published(s, DirectWake(row, attempt)));
  }
}
