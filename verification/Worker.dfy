/** One turn of the worker loop: worker/main.py. */
module WorkerLoop {
  import opened Wrappers
  import opened AttemptStatuses
  import opened AttemptTable
  import opened Payloads
  import opened Pipeline
  import opened AttemptInvariants
  import opened Turns
  import opened WakeService
  import opened EnsureOnline
  import Queue = JobQueue

  const POLL_INTERVAL := 5 * MICROS_PER_SECOND

  /** What the world answers during one job; `polled` is the machine as `run` finds it, and `breaks` says whether a
      statement of the polling part fails, and at which of two points. */
  datatype JobWorld = JobWorld(
    wake: WakeWorld, polled: Option<Target>, poll: PollWorld, now: Time, breaks: Option<bool>)

  /** The wake of this job sends its packet, and the order asks for polling after that. */
  predicate ComesToPolling(o: WakeOrder, w: WakeWorld) {
    Sends(o, w) && o.ensureOnline
  }

  /** `_process_job` returns: the payload can be decoded, and if it comes to polling, no statement of that fails. */
  predicate Returns(payload: Payload, world: JobWorld) {
    && Decode(payload).Success?
    && (ComesToPolling(Decode(payload).value, world.wake) ==> world.breaks.None?)
  }

  /** In the table `seen` by a session that had written `log`, the row polled was a latest active one of the order's
      machine; and it was failed because its machine is gone, or went to WAKING and on to what the network answered. */
  ghost predicate PollsFrom(seen: Table, o: WakeOrder, world: JobWorld, log: Log, polling: Log) {
    var view := Apply(seen, log);
    polling != [] &&
    var target := polling[0].id;
    IsLatestActive(view, o.machine, target) &&
    if world.polled.None? then polling == [Update(target, Failed, Some("Machine not found"), Some(world.now))]
    else
      && |polling| == 2 && polling[0] == Update(target, Waking, None, None)
      && EndsPolling(polling[1], target, world.polled.value, view[target].startedAt, view[target].pollTimeout, world.poll)
  }

  /** The same, in some table that other sessions may have brought about since `before`. */
  ghost predicate Polled(before: Table, o: WakeOrder, world: JobWorld, log: Log, polling: Log, locks: set<AttemptId>) {
    exists seen: Table :: Evolves(before, seen, locks) && PollsFrom(seen, o, world, log, polling)
  }

  /** The second half of `_process_job`, after a successful wake: choose the attempt to poll, and poll it. The attempt is
      the latest active one, never the fallback; it is finished when the method returns, ONLINE exactly if some round of
      probing begun in time finds its machine online. */
  method PollActive(session: AttemptSession, order: WakeOrder, world: JobWorld) returns (r: Result<(), string>)
    requires |session.log| == 2 && OpensAndSends(order, session.log)
    requires order.ensureOnline && Advances(world.poll.clock, 5 * 1_000_000)
    modifies session`log, session`committed
    ensures r.Success? <==> world.breaks.None?
    ensures r.Success? ==>
              && |session.log| >= 2 && session.log[..2] == old(session.log)
              && Polled(old(session.committed), order, world, old(session.log), session.log[2..], Touched(old(session.log)))
  {
    ghost var before := session.log;
    session.Await();
    ghost var seen := session.committed;
    SentRowIsVisible(session.committed, order, session.log);
    ghost var view := session.View();
    var active := session.GetActiveForMachine(order.machine);
    assert session.View() == view && IsActiveFor(view, order.machine, before[0].id);
    if world.breaks == Some(true) {
      return Failure("database error");
    }
    // The id of a row is a UUID and never empty; only the payload's could be.
    if active.Some? || order.attempt != "" {
      var runId := if active.Some? then active.value else order.attempt;
      assert IsLatestActive(Apply(seen, before), order.machine, runId);
      var status := RunAttempt(session, runId, world.polled, POLL_INTERVAL, world.poll, world.now);
      assert session.log == before + session.log[2..];
      assert PollsFrom(seen, order, world, before, session.log[2..]);
    }
    if world.breaks.Some? {
      return Failure("database error");
    }
    return Success(());
  }

  /** The transaction `_process_job` leaves when it returns: what the wake wrote, and the polling if it came to that. */
  ghost predicate IsTransaction(before: Table, o: WakeOrder, world: JobWorld, log: Log) {
    var woken := WakeLog(o, world.wake);
    if !ComesToPolling(o, world.wake) then log == woken
    else |log| >= |woken| && log[..|woken|] == woken && Polled(before, o, world, woken, log[|woken|..], {})
  }

  /** Such a transaction has one of the shapes that the pipeline's workers leave, and tells what happened: whether the
      machine was woken, and what the polling found. */
  lemma TransactionIsComplete(before: Table, o: WakeOrder, world: JobWorld, log: Log)
    requires IsTransaction(before, o, world, log)
    ensures IsComplete(o, log)
    ensures log == [] <==> world.wake.machine.None? || !world.wake.machine.value.enabled
    ensures |log| > 2 <==> ComesToPolling(o, world.wake)
    ensures log != [] ==> log[0] == Insert(world.wake.uuid, RowOf(o, world.wake.machine.value, world.wake.startedAt))
    ensures |log| >= 2 ==> (log[1].Update? && (log[1].status == Sent <==> world.wake.raised.None?))
  {
    if ComesToPolling(o, world.wake) {
      var woken := WakeLog(o, world.wake);
      assert log == woken + log[2..];
      var seen: Table :| Evolves(before, seen, {}) && PollsFrom(seen, o, world, woken, log[2..]);
      if world.polled.Some? {
        var row := Apply(seen, woken)[log[2].id];
        assert log[3] == log[2..][1];
        StatusTells(log[3], log[2].id, world.polled.value, row.startedAt, row.pollTimeout, world.poll);
      }
    }
  }

  /** `_process_job`. It returns unless the payload cannot be decoded or a statement of the polling fails; a wake that
      fails is swallowed. If it raises, the caller must roll back. */
  method ProcessJob(session: AttemptSession, payload: Payload, world: JobWorld) returns (r: Result<(), string>)
    requires session.log == [] && world.wake.uuid !in session.committed
    requires Advances(world.poll.clock, 5 * 1_000_000)
    modifies session`log, session`committed
    ensures Decode(payload).Failure? ==> session.log == []
    ensures r.Success? <==> Returns(payload, world)
    ensures r.Success? ==> IsTransaction(old(session.committed), Decode(payload).value, world, session.log)
  {
    var decoded := Decode(payload);
    if decoded.Failure? {
      return Failure(decoded.error);
    }
    var order := decoded.value;
    var woken := Wake(session, order, world.wake);
    assert session.log == WakeLog(order, world.wake);
    if woken.Failure? || !order.ensureOnline {
      return Success(());
    }
    SendingOpens(order, world.wake);
    ghost var between := session.committed;
    r := PollActive(session, order, world);
    if r.Success? {
      PollingIsTransaction(old(session.committed), between, order, world, session.log);
    }
  }

  lemma SendingOpens(o: WakeOrder, w: WakeWorld)
    requires Sends(o, w)
    ensures |WakeLog(o, w)| == 2 && OpensAndSends(o, WakeLog(o, w))
  {
  }

  lemma PollingIsTransaction(before: Table, between: Table, o: WakeOrder, world: JobWorld, log: Log)
    requires Evolves(before, between, {}) && ComesToPolling(o, world.wake) && |log| >= 2 && log[..2] == WakeLog(o, world.wake)
    requires Polled(between, o, world, log[..2], log[2..], Touched(log[..2]))
    ensures IsTransaction(before, o, world, log)
  {
    PolledSince(before, between, o, world, log[..2], log[2..]);
  }

  lemma PolledSince(before: Table, between: Table, o: WakeOrder, world: JobWorld, log: Log, polling: Log)
    requires Evolves(before, between, {}) && Polled(between, o, world, log, polling, Touched(log))
    ensures Polled(before, o, world, log, polling, {})
  {
    var seen: Table :| Evolves(between, seen, Touched(log)) && PollsFrom(seen, o, world, log, polling);
    assert Evolves(before, seen, {});
  }

  /** The body of `while not _shutdown`, with a fresh session. The job is marked done before its own writes are
      committed, so writes are published only by a turn that completes, with the job done; when the job ends in error
      the turn has published nothing. */
  method ServeOne(queue: Queue.JobQueue, session: AttemptSession, world: JobWorld, commits: Commits, now: Time, error: string)
    returns (turn: Turn)
    requires session.log == [] && session.published == [] && world.wake.uuid !in session.committed
    requires Advances(world.poll.clock, 5 * 1_000_000)
    modifies queue, session
    ensures session.log == []
    ensures !turn.Completed? ==> session.published == []
    ensures turn.NoJob? <==>
            forall id :: id in old(queue.jobs) && old(queue.jobs)[id].status == Queued ==> id in old(queue.locked)
    ensures turn.NoJob? || turn.Unclaimed? ==> queue.jobs == old(queue.jobs)
    ensures !turn.NoJob? ==> (turn.Unclaimed? <==> commits.claimFails)
    ensures !turn.NoJob? && !turn.Unclaimed? ==>
              && IsOldestFree(old(queue.jobs), old(queue.locked), turn.job) && turn.job in queue.jobs
              && var before := old(queue.jobs)[turn.job];
                 && (turn.Completed? <==>
                       && Decode(before.payload).Success?
                       && (world.breaks.None? || !ComesToPolling(Decode(before.payload).value, world.wake))
                       && !commits.doneFails && !commits.sessionFails)
                 && (turn.Escaped? <==> !turn.Completed? && commits.errorFails)
                 && queue.jobs[turn.job]
                    == SettledJob(ClaimedJob(before, now), Returns(before.payload, world), commits, error)
    ensures turn.Completed? ==>
              && queue.jobs[turn.job].status == Done
              && IsTransaction(old(session.committed), Decode(old(queue.jobs)[turn.job].payload).value, world, session.published)
    ensures turn.Errored? ==> queue.jobs[turn.job].status == JobStatus.Error
  {
    var claimed := queue.ClaimNext(now, commits.claimFails);
    if claimed.Failure? {
      return Unclaimed;
    }
    if claimed.value.None? {
      return NoJob;
    }
    var (id, payload) := claimed.value.value;
    queue.Await({id});
    var result := ProcessJob(session, payload, world);
    queue.Await({id});
    turn := Settle(queue, session, id, result.Success?, commits, error);
  }

  /** The two commits of a processed job, in the order of the source, or rollback and `mark_error`. */
  method Settle(queue: Queue.JobQueue, session: AttemptSession, id: JobId, processed: bool, commits: Commits, error: string)
    returns (turn: Turn)
    requires id in queue.jobs && session.published == []
    modifies queue, session
    ensures turn == if Publishes(processed, commits) then Completed(id)
                    else if commits.errorFails then Escaped(id) else Errored(id)
    ensures session.log == [] && session.published == if turn.Completed? then old(session.log) else []
    ensures id in queue.jobs && queue.jobs[id] == SettledJob(old(queue.jobs)[id], processed, commits, error)
  {
    if processed {
      var marked := queue.MarkDone(id, commits.doneFails);
      queue.Await({id});
      if marked && !commits.sessionFails {
        session.Commit();
        return Completed(id);
      }
    }
    session.Rollback();
    var marked := queue.MarkError(id, error, commits.errorFails);
    return if marked then Errored(id) else Escaped(id);
  }
}
