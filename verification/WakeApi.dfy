/** Queueing a wake: POST /machines/{id}/wake of app/api/wake.py, in its request transaction (app/persistence/database.py). */
module WakeApi {
  import opened Wrappers
  import opened AttemptStatuses
  import opened AttemptTable
  import opened Payloads
  import opened Pipeline
  import opened WakeService
  import Queue = JobQueue

  datatype WakeBody = WakeBody(ensureOnline: bool, pollTimeout: int, strategy: Option<WakeStrategy>)

  /** What the world answers during one request: the machine found, the UUIDs and clock readings drawn, and which of the
      two commits fail. */
  datatype PostWorld = PostWorld(
    machine: Option<Machine>, uuid: AttemptId, startedAt: Time, job: JobId, createdAt: Time,
    commitFails: bool, enqueueFails: bool)

  datatype ApiError = NotFound | DatabaseError

  /** The row whose id the client gets. */
  function ClientRow(machineId: string, m: Machine, body: WakeBody, startedAt: Time): Attempt {
    Attempt(machineId, if body.strategy.Some? then body.strategy.value.Value() else m.strategy, Pending,
            body.ensureOnline, body.pollTimeout, startedAt, None, None)
  }

  function RequestOf(machineId: string, body: WakeBody, attempt: AttemptId, user: string): WakeRequest {
    WakeRequest(machineId, attempt, body.ensureOnline, body.pollTimeout, body.strategy, user)
  }

  /** `wake_machine`. The attempt is committed before its job is, so a job never names an attempt that is not there; when
      the second commit fails the PENDING attempt stays behind, and no job will ever serve it. The job, once queued, holds
      all that the client asked for. Row and request are what the event PostWake of the pipeline asks for. */
  method WakeMachine(queue: Queue.JobQueue, session: AttemptSession, machineId: string, body: WakeBody, user: string,
                     world: PostWorld)
    returns (r: Result<AttemptId, ApiError>)
    requires session.log == [] && session.published == []
    requires world.uuid !in session.committed && world.job !in queue.jobs
    modifies queue, session
    ensures session.log == []
    ensures r.Success? <==> world.machine.Some? && !world.commitFails && !world.enqueueFails
    ensures r == Failure(NotFound) <==> world.machine.None?
    ensures world.machine.None? || world.commitFails ==> session.published == [] && queue.jobs == old(queue.jobs)
    ensures world.machine.Some? && !world.commitFails ==>
              var row := ClientRow(machineId, world.machine.value, body, world.startedAt);
              && session.published == [Insert(world.uuid, row)] && world.uuid in session.committed
              && IsPosted(world.uuid, row, RequestOf(machineId, body, world.uuid, user))
              && row.machine == machineId && row.status == Pending && row.error == None && row.finishedAt == None
              && row.ensureOnline == body.ensureOnline && row.pollTimeout == body.pollTimeout && row.startedAt == world.startedAt
              && row.strategy == (if body.strategy.None? then world.machine.value.strategy
                                  else if body.strategy.value.Etherwake? then "etherwake" else "udp_broadcast")
    ensures world.job in queue.jobs <==> r.Success?
    ensures r.Success? ==>
              var job := queue.jobs[world.job];
              && r.value == world.uuid && job.attempt == world.uuid && job.status == Queued && job.claimedAt == None
              && job.createdAt == world.createdAt
              && Decode(job.payload).Success?
              && var o := Decode(job.payload).value;
                 && o.machine == machineId && o.attempt == world.uuid && o.ensureOnline == body.ensureOnline
                 && o.pollTimeout == body.pollTimeout && o.actorType == "user" && o.actorId == user
                 && o.strategyOverride == (if body.strategy.None? then None
                                           else if body.strategy.value.Etherwake? then Some("etherwake")
                                           else Some("udp_broadcast"))
    ensures Queue.JobsEvolve(old(queue.jobs), queue.jobs - {world.job}, {world.job})
  {
    if world.machine.None? {
      return Failure(NotFound);
    }
    session.Create(world.uuid, ClientRow(machineId, world.machine.value, body, world.startedAt));
    if world.commitFails {
      session.Rollback();
      return Failure(DatabaseError);
    }
    session.Commit();
    // From here on the row is visible to everybody, and a worker may already be polling it.
    session.Await();
    queue.Await({world.job});
    var request := RequestOf(machineId, body, world.uuid, user);
    DecodeEncode(request);
    var queued := queue.Enqueue(world.job, world.uuid, Encode(request), world.createdAt, world.enqueueFails);
    r := if queued then Success(world.uuid) else Failure(DatabaseError);
  }
}
