/** Runs of the pipeline in which an expectation fails that the code does not secure. Each names the run. */
module Counterexamples {
  import opened Wrappers
  import opened AttemptStatuses
  import opened AttemptTable
  import opened Payloads
  import opened Pipeline
  import opened AttemptInvariants
  import opened Histories
  import opened Runs

  /** A fresh row, and the request of a client who wants the machine polled. */
  function NewRow(startedAt: Time): Attempt {
    Attempt("m", "etherwake", Pending, true, 120, startedAt, None, None)
  }

  function PollRequest(attempt: AttemptId): WakeRequest {
    WakeRequest("m", attempt, true, 120, None, "u")
  }

  function PollOrder(attempt: AttemptId): WakeOrder {
    WakeOrder("m", attempt, true, 120, None, "user", "u")
  }

  lemma DecodePollRequest(attempt: AttemptId)
    ensures Decode(Encode(PollRequest(attempt))) == Success(PollOrder(attempt))
  {
    DecodeEncode(PollRequest(attempt));
  }

  /** POST /wake of a fresh row `a`, with its job `j`. */
  lemma Post(n: nat, r: Run, a: AttemptId, j: JobId, time: Time) returns (r': Run)
    requires IsRun(n, r) && FreshAttempt(Last(r), a) && j !in Last(r).jobs
    ensures IsRun(n, r')
    ensures Last(r').attempts == Last(r).attempts[a := NewRow(time)] && Last(r').workers == Last(r).workers
    ensures Last(r').jobs == Last(r).jobs[j := Job(a, Queued, Encode(PollRequest(a)), time, None)]
    ensures Writes(Last(r').ledger) == Writes(Last(r).ledger) + [Insert(a, NewRow(time))]
  {
    var e1 := PostWake(a, NewRow(time), PollRequest(a));
    ExtendIsRun(n, r, e1);
    var r1 := Extend(r, e1);
    ApplyShort(Last(r).attempts, [Insert(a, NewRow(time))]);
    WritesAppend(Last(r).ledger, Api, [Insert(a, NewRow(time))]);
    var e2 := Enqueue(j, a, time);
    ExtendIsRun(n, r1, e2);
    r' := Extend(r1, e2);
    WritesAppend(Last(r1).ledger, Api, []);
  }

  /** An idle worker `w` locks job `j` and commits the claim. */
  lemma Take(n: nat, r: Run, w: WorkerId, j: JobId) returns (r': Run)
    requires IsRun(n, r) && w < |Last(r).workers| && Last(r).workers[w].Idle?
    requires IsOldestFree(Last(r).jobs, LockedJobs(Last(r)), j)
    ensures IsRun(n, r') && Last(r').attempts == Last(r).attempts && Writes(Last(r').ledger) == Writes(Last(r).ledger)
    ensures Last(r').workers == Last(r).workers[w := Claimed(j, Last(r).jobs[j].payload)]
    ensures Last(r').jobs == Last(r).jobs[j := Last(r).jobs[j].(status := Running, claimedAt := Some(0))]
  {
    ExtendIsRun(n, r, Lock(w, j));
    var r1 := Extend(r, Lock(w, j));
    WritesAppend(Last(r).ledger, Api, []);
    assert Last(r1).workers == Last(r).workers[w := Locking(j)] && Last(r1).jobs == Last(r).jobs;
    ExtendIsRun(n, r1, ClaimCommit(w, 0));
    r' := Extend(r1, ClaimCommit(w, 0));
    WritesAppend(Last(r1).ledger, Api, []);
  }

  /** An idle worker `w` claims job `j` of the request `a` and enters `_process_job`. */
  lemma Claim(n: nat, r: Run, w: WorkerId, j: JobId, a: AttemptId) returns (r': Run)
    requires IsRun(n, r) && w < |Last(r).workers| && Last(r).workers[w].Idle?
    requires IsOldestFree(Last(r).jobs, LockedJobs(Last(r)), j) && Last(r).jobs[j].payload == Encode(PollRequest(a))
    ensures IsRun(n, r') && Last(r').attempts == Last(r).attempts && Writes(Last(r').ledger) == Writes(Last(r).ledger)
    ensures Last(r').workers == Last(r).workers[w := Processing(j, PollOrder(a), [], Begin)]
    ensures Last(r').jobs == Last(r).jobs[j := Last(r).jobs[j].(status := Running, claimedAt := Some(0))]
  {
    var r1 := Take(n, r, w, j);
    DecodePollRequest(a);
    ExtendIsRun(n, r1, Start(w));
    r' := Extend(r1, Start(w));
    WritesAppend(Last(r1).ledger, Api, []);
  }

  /** One action inside the transaction of worker `w`. */
  lemma Perform(n: nat, r: Run, w: WorkerId, a: Action) returns (r': Run)
    requires IsRun(n, r) && Enabled(Last(r), Act(w, a))
    ensures IsRun(n, r') && r.states <= r'.states
    ensures Last(r').attempts == Last(r).attempts && Writes(Last(r').ledger) == Writes(Last(r).ledger)
    ensures Last(r').workers == Last(r).workers[w := Acted(Last(r).workers[w], a)] && Last(r').jobs == Last(r).jobs
  {
    ExtendIsRun(n, r, Act(w, a));
    r' := Extend(r, Act(w, a));
    WritesAppend(Last(r).ledger, Api, []);
  }

  function Sending(b: AttemptId, time: Time): Log {
    [Insert(b, NewRow(time)), SentWrite(b)]
  }

  lemma MakeRow(n: nat, r: Run, w: WorkerId, b: AttemptId, time: Time) returns (r': Run)
    requires IsRun(n, r) && w < |Last(r).workers| && FreshAttempt(Last(r), b)
    requires var wk := Last(r).workers[w]; wk.Processing? && wk.phase.Begin? && wk.log == [] && IsRowFor(wk.order, NewRow(time))
    ensures IsRun(n, r') && Last(r').attempts == Last(r).attempts && Writes(Last(r').ledger) == Writes(Last(r).ledger)
    ensures var wk := Last(r).workers[w];
            Last(r').workers == Last(r).workers[w := Processing(wk.job, wk.order, [Insert(b, NewRow(time))], Created(b))]
    ensures Last(r').jobs == Last(r).jobs
  {
    r' := Perform(n, r, w, CreateRow(b, NewRow(time)));
    assert [] + [Insert(b, NewRow(time))] == [Insert(b, NewRow(time))];
  }

  lemma SendPacket(n: nat, r: Run, w: WorkerId, b: AttemptId, time: Time) returns (r': Run)
    requires IsRun(n, r) && w < |Last(r).workers| && Last(r).workers[w].Processing?
    requires Last(r).workers[w].log == [Insert(b, NewRow(time))] && Last(r).workers[w].phase == Created(b)
    ensures IsRun(n, r') && Last(r').attempts == Last(r).attempts && Writes(Last(r').ledger) == Writes(Last(r).ledger)
    ensures var wk := Last(r).workers[w];
            Last(r').workers == Last(r).workers[w := Processing(wk.job, wk.order, Sending(b, time), Woken(b))]
    ensures Last(r').jobs == Last(r).jobs
  {
    ApplyShort(Last(r).attempts, [Insert(b, NewRow(time))]);
    r' := Perform(n, r, w, Send);
    assert [Insert(b, NewRow(time))] + [SentWrite(b)] == [Insert(b, NewRow(time)), SentWrite(b)];
  }

  /** The worker creates row `b` and sends the packet. */
  lemma WakeUp(n: nat, r: Run, w: WorkerId, b: AttemptId, time: Time) returns (r': Run)
    requires IsRun(n, r) && w < |Last(r).workers| && FreshAttempt(Last(r), b)
    requires var wk := Last(r).workers[w]; wk.Processing? && wk.phase.Begin? && wk.log == [] && IsRowFor(wk.order, NewRow(time))
    ensures IsRun(n, r') && Last(r').attempts == Last(r).attempts && Writes(Last(r').ledger) == Writes(Last(r).ledger)
    ensures var wk := Last(r).workers[w];
            Last(r').workers == Last(r).workers[w := Processing(wk.job, wk.order, Sending(b, time), Woken(b))]
    ensures Last(r').jobs == Last(r).jobs
  {
    r' := MakeRow(n, r, w, b, time);
    r' := SendPacket(n, r', w, b, time);
  }

  function EndWrite(c: AttemptId, outcome: Action): Write
    requires outcome.ComesOnline? || outcome.TimesOut?
  {
    if outcome.ComesOnline? then OnlineWrite(c, outcome.now) else TimeoutWrite(c, outcome.error, outcome.now)
  }

  /** Worker `w` polls the row `c` it picked to an outcome. */
  lemma Poll(n: nat, r: Run, w: WorkerId, c: AttemptId, outcome: Action) returns (r': Run)
    requires IsRun(n, r) && w < |Last(r).workers| && (outcome.ComesOnline? || outcome.TimesOut?)
    requires Last(r).workers[w].Processing? && Last(r).workers[w].phase.Picked? && Last(r).workers[w].phase.target == c
    requires Unlocked(Last(r), w, c) && c in View(Last(r), w)
    ensures IsRun(n, r') && r.states <= r'.states
    ensures Last(r').attempts == Last(r).attempts && Writes(Last(r').ledger) == Writes(Last(r).ledger)
    ensures Last(r').jobs == Last(r).jobs
    ensures var wk := Last(r).workers[w];
            var log := wk.log + [WakingWrite(c), EndWrite(c, outcome)];
            Last(r').workers == Last(r).workers[w := Processing(wk.job, wk.order, log, Finished)]
  {
    var wk := Last(r).workers[w];
    var r1 := Perform(n, r, w, StartPolling);
    assert Last(r1).workers[w] == Processing(wk.job, wk.order, wk.log + [WakingWrite(c)], Polling(wk.phase.own, c));
    r' := Perform(n, r1, w, outcome);
    assert wk.log + [WakingWrite(c)] + [EndWrite(c, outcome)] == wk.log + [WakingWrite(c), EndWrite(c, outcome)];
  }

  /** ... after which the job is marked done and committed. */
  lemma Finish(n: nat, r: Run, w: WorkerId, c: AttemptId, outcome: Action) returns (r': Run)
    requires IsRun(n, r) && w < |Last(r).workers| && (outcome.ComesOnline? || outcome.TimesOut?)
    requires Last(r).workers[w].Processing? && Last(r).workers[w].phase.Picked? && Last(r).workers[w].phase.target == c
    requires Unlocked(Last(r), w, c) && c in View(Last(r), w) && Last(r).workers[w].job in Last(r).jobs
    ensures IsRun(n, r') && r.states <= r'.states
    ensures var log := Last(r).workers[w].log + [WakingWrite(c), EndWrite(c, outcome)];
            && Last(r').attempts == Apply(Last(r).attempts, log)
            && Writes(Last(r').ledger) == Writes(Last(r).ledger) + log
    ensures Last(r').workers == Last(r).workers[w := Idle] && Last(r').jobs.Keys == Last(r).jobs.Keys
  {
    r' := Poll(n, r, w, c, outcome);
    r' := Publish(n, r', w);
  }

  /** Worker `w`, done waking, picks the row `c`. */
  lemma PickRow(n: nat, r: Run, w: WorkerId, c: AttemptId) returns (r': Run)
    requires IsRun(n, r) && w < |Last(r).workers| && Last(r).workers[w].Processing? && Last(r).workers[w].phase.Woken?
    requires Last(r).workers[w].order.ensureOnline && IsLatestActive(View(Last(r), w), Last(r).workers[w].order.machine, c)
    ensures IsRun(n, r') && Last(r').attempts == Last(r).attempts && Writes(Last(r').ledger) == Writes(Last(r).ledger)
    ensures Last(r').workers == Last(r).workers[w := Last(r).workers[w].(phase := Picked(Last(r).workers[w].phase.own, c))]
    ensures Last(r').jobs == Last(r).jobs
  {
    r' := Perform(n, r, w, Pick(c));
    assert Last(r).workers[w].log + [] == Last(r).workers[w].log;
  }

  lemma Publish(n: nat, r: Run, w: WorkerId) returns (r': Run)
    requires IsRun(n, r) && w < |Last(r).workers|
    requires Last(r).workers[w].Processing? && Last(r).workers[w].phase.Finished? && Last(r).workers[w].job in Last(r).jobs
    ensures IsRun(n, r') && r.states <= r'.states
    ensures Last(r').attempts == Apply(Last(r).attempts, Last(r).workers[w].log)
    ensures Writes(Last(r').ledger) == Writes(Last(r).ledger) + Last(r).workers[w].log
    ensures Last(r').workers == Last(r).workers[w := Idle] && Last(r').jobs.Keys == Last(r).jobs.Keys
  {
    ExtendIsRun(n, r, MarkDone(w));
    var r1 := Extend(r, MarkDone(w));
    WritesAppend(Last(r).ledger, Api, []);
    ExtendIsRun(n, r1, Commit(w));
    r' := Extend(r1, Commit(w));
    WritesAppend(Last(r1).ledger, Publisher(Last(r1), Commit(w)), Last(r1).workers[w].log);
  }

  /** The rows two clients posted, and what the worker has written while serving the first of them. */
  const TWO_POSTS: Log := [Insert("a", NewRow(1)), Insert("c", NewRow(3))]
  const OWN_ROW: Log := [Insert("b", NewRow(2)), SentWrite("b")]

  function ServingA(log: Log, phase: Phase): Worker {
    Processing("j", PollOrder("a"), log, phase)
  }

  function ServingD(log: Log, phase: Phase): Worker {
    Processing("l", PollOrder("d"), log, phase)
  }

  /** The worker has taken the job of "a" and sent its packet under its own row "b". */
  lemma WokenRun() returns (r: Run)
    ensures IsRun(1, r) && Last(r).attempts == map["a" := NewRow(1)] && Writes(Last(r).ledger) == [Insert("a", NewRow(1))]
    ensures Last(r).workers == [ServingA(OWN_ROW, Woken("b"))] && Last(r).jobs.Keys == {"j"}
  {
    DistinctNames();
    r := EmptyRun(1);
    r := Post(1, r, "a", "j", 1);
    assert Last(r).jobs.Keys == {"j"} && Last(r).workers == [Idle];
    r := Claim(1, r, 0, "j", "a");
    assert Last(r).workers == [ServingA([], Begin)];
    r := WakeUp(1, r, 0, "b", 2);
  }

  /** Then "c" is posted for the same machine; it started last, so it is the row picked. */
  lemma PickedRun() returns (r: Run)
    ensures IsRun(1, r) && Last(r).attempts == map["a" := NewRow(1), "c" := NewRow(3)] && Writes(Last(r).ledger) == TWO_POSTS
    ensures Last(r).workers == [ServingA(OWN_ROW, Picked("b", "c"))] && "j" in Last(r).jobs
  {
    DistinctNames();
    r := WokenRun();
    assert Touched(OWN_ROW) == {"b"};
    r := Post(1, r, "c", "k", 3);
    ApplyShort(Last(r).attempts, OWN_ROW);
    assert View(Last(r), 0) == map["a" := NewRow(1), "c" := NewRow(3), "b" := NewRow(2).(status := Sent)];
    r := PickRow(1, r, 0, "c");
  }

  /** One worker suffices for an illegal history. While it serves a first request, a second POST /wake for the same
      machine commits its row "c"; that row started last, so it is the one polled, and it goes from PENDING to
      WAKING, a step the transition table does not have. */
  lemma PendingRowIsPolled() returns (r: Run)
    ensures IsRun(1, r) && !AllLegal(Writes(Last(r).ledger))
    ensures History(Writes(Last(r).ledger), "c") == [Pending, Waking, Online]
  {
    DistinctNames();
    r := PickedRun();
    ApplyShort(Last(r).attempts, OWN_ROW);
    r := Finish(1, r, 0, "c", ComesOnline(4));
    var log := OWN_ROW + [WakingWrite("c"), OnlineWrite("c", 4)];
    HistoryShort([], TWO_POSTS, "c");
    assert [] + TWO_POSTS == TWO_POSTS;
    HistoryShort(TWO_POSTS, log, "c");
    var h := History(Writes(Last(r).ledger), "c");
    assert !h[0].CanTransitionTo(h[1]);
  }

  /** A job can be done without its effects: `mark_done` commits first, and when the worker dies before its own commit,
      the job says done, nobody holds it, and neither its own row "b" nor the outcome of the polling was ever stored. */
  lemma DoneWithoutEffects() returns (r: Run)
    ensures IsRun(1, r) && Last(r).workers == [Idle] && "j" in Last(r).jobs && Last(r).jobs["j"].status == Done
    ensures Last(r).attempts == map["a" := NewRow(1), "c" := NewRow(3)] && Writes(Last(r).ledger) == TWO_POSTS
  {
    DistinctNames();
    r := PickedRun();
    ApplyShort(Last(r).attempts, OWN_ROW);
    r := Poll(1, r, 0, "c", ComesOnline(4));
    ExtendIsRun(1, r, MarkDone(0));
    var marked := Extend(r, MarkDone(0));
    WritesAppend(Last(r).ledger, Api, []);
    assert Last(marked).jobs["j"].status == Done && Last(marked).workers[0].Committing?;
    ExtendIsRun(1, marked, Crash(0));
    WritesAppend(Last(marked).ledger, Api, []);
    r := Extend(marked, Crash(0));
  }

  /** A job can be stuck: its worker claims it and dies, the job says running, and nobody holds it. */
  lemma RunningIsAbandoned() returns (r: Run)
    ensures IsRun(1, r) && "j" in Last(r).jobs && Last(r).jobs["j"].status == Running && Last(r).workers == [Idle]
  {
    r := EmptyRun(1);
    r := Post(1, r, "a", "j", 1);
    assert Last(r).jobs.Keys == {"j"} && Last(r).workers == [Idle];
    r := Take(1, r, 0, "j");
    ExtendIsRun(1, r, Crash(0));
    r := Extend(r, Crash(0));
  }

  const OTHER_ROW: Log := [Insert("e", NewRow(4)), SentWrite("e")]

  /** Two workers serve the jobs of "a" and "d"; each has sent its packet under a row of its own. */
  lemma TwoWokenRun() returns (r: Run)
    ensures IsRun(2, r) && Last(r).attempts == map["a" := NewRow(1), "d" := NewRow(2)]
    ensures Last(r).workers == [ServingA(OWN_ROW, Woken("b")), ServingD(OTHER_ROW, Woken("e"))]
    ensures Last(r).jobs.Keys == {"j", "l"}
  {
    DistinctNames();
    r := TwoPostedRun();
    r := Claim(2, r, 0, "j", "a");
    assert Last(r).workers == [ServingA([], Begin), Idle];
    r := Claim(2, r, 1, "l", "d");
    assert Last(r).workers == [ServingA([], Begin), ServingD([], Begin)];
    r := BothWake(r);
  }

  lemma TwoPostedRun() returns (r: Run)
    ensures IsRun(2, r) && Last(r).attempts == map["a" := NewRow(1), "d" := NewRow(2)] && Last(r).workers == [Idle, Idle]
    ensures Last(r).jobs == map["j" := Job("a", Queued, Encode(PollRequest("a")), 1, None),
                                "l" := Job("d", Queued, Encode(PollRequest("d")), 2, None)]
  {
    DistinctNames();
    r := EmptyRun(2);
    r := Post(2, r, "a", "j", 1);
    r := Post(2, r, "d", "l", 2);
  }

  lemma BothWake(r: Run) returns (r': Run)
    requires IsRun(2, r) && Last(r).attempts == map["a" := NewRow(1), "d" := NewRow(2)]
    requires Last(r).workers == [ServingA([], Begin), ServingD([], Begin)]
    ensures IsRun(2, r') && Last(r').attempts == Last(r).attempts && Last(r').jobs == Last(r).jobs
    ensures Last(r').workers == [ServingA(OWN_ROW, Woken("b")), ServingD(OTHER_ROW, Woken("e"))]
  {
    DistinctNames();
    r' := WakeUp(2, r, 0, "b", 2);
    assert Touched(OWN_ROW) == {"b"};
    r' := WakeUp(2, r', 1, "e", 4);
  }

  /** Both pick the row "c" that a third client posted in the meantime. */
  lemma BothPickedRun() returns (r: Run)
    ensures IsRun(2, r) && Last(r).attempts == map["a" := NewRow(1), "d" := NewRow(2), "c" := NewRow(5)]
    ensures Last(r).workers == [ServingA(OWN_ROW, Picked("b", "c")), ServingD(OTHER_ROW, Picked("e", "c"))]
    ensures "j" in Last(r).jobs && "l" in Last(r).jobs
  {
    DistinctNames();
    r := TwoWokenRun();
    assert Touched(OWN_ROW) == {"b"} && Touched(OTHER_ROW) == {"e"};
    r := Post(2, r, "c", "k", 5);
    var posted: Table := map["a" := NewRow(1), "d" := NewRow(2), "c" := NewRow(5)];
    LatestIsC(posted);
    r := PickRow(2, r, 0, "c");
    r := PickRow(2, r, 1, "c");
  }

  lemma LatestIsC(posted: Table)
    requires posted == map["a" := NewRow(1), "d" := NewRow(2), "c" := NewRow(5)]
    ensures IsLatestActive(Apply(posted, OWN_ROW), "m", "c") && IsLatestActive(Apply(posted, OTHER_ROW), "m", "c")
  {
    DistinctNames();
    ApplyShort(posted, OWN_ROW);
    ApplyShort(posted, OTHER_ROW);
  }

  /** The first worker reports "c" ONLINE and commits. */
  lemma FirstReportedRun() returns (r: Run)
    ensures IsRun(2, r) && "c" in Last(r).attempts && Last(r).attempts["c"].status == Online
    ensures Last(r).workers == [Idle, ServingD(OTHER_ROW, Picked("e", "c"))] && "l" in Last(r).jobs
  {
    DistinctNames();
    r := BothPickedRun();
    assert Touched(OTHER_ROW) == {"e"};
    ApplyShort(Last(r).attempts, OWN_ROW);
    ApplyShort(Last(r).attempts, OWN_ROW + [WakingWrite("c"), OnlineWrite("c", 6)]);
    r := Finish(2, r, 0, "c", ComesOnline(6));
  }

  /** Two workers are enough to rewrite a finished attempt: both pick "c", the first reports it ONLINE and commits, the
      second then takes the same row through WAKING to TIMEOUT. */
  lemma TwoWorkersOverwrite() returns (r: Run, i: nat)
    ensures IsRun(2, r) && i < |r.states| && "c" in r.states[i].attempts && "c" in Last(r).attempts
    ensures r.states[i].attempts["c"].status == Online && Last(r).attempts["c"].status == Timeout
  {
    DistinctNames();
    r := FirstReportedRun();
    i := |r.states| - 1;
    ApplyShort(Last(r).attempts, OTHER_ROW);
    ApplyShort(Last(r).attempts, OTHER_ROW + [WakingWrite("c"), TimeoutWrite("c", "late", 7)]);
    r := Finish(2, r, 1, "c", TimesOut("late", 7));
  }

  lemma DistinctNames()
    ensures "a" != "b" && "a" != "c" && "b" != "c" && "j" != "k" && "d" != "a" && "d" != "b" && "d" != "c"
    ensures "e" != "a" && "e" != "b" && "e" != "c" && "e" != "d" && "k" != "l" && "j" != "l"
  {
    assert "a"[0] != "b"[0] && "a"[0] != "c"[0] && "b"[0] != "c"[0] && "j"[0] != "k"[0] && "k"[0] != "l"[0] && "j"[0] != "l"[0];
    assert "d"[0] != "a"[0] && "d"[0] != "b"[0] && "d"[0] != "c"[0];
    assert "e"[0] != "a"[0] && "e"[0] != "b"[0] && "e"[0] != "c"[0] && "e"[0] != "d"[0];
  }
}
