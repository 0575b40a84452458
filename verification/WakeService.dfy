/** Sending a wake packet and recording the attempt: app/services/wake.py, and the direct endpoint of
    app/api/wake.py in its request transaction (app/persistence/database.py). */
module WakeService {
  import opened Wrappers
  import opened AttemptStatuses
  import opened AttemptTable
  import opened Payloads
  import opened Pipeline
  import opened AttemptInvariants

  datatype Machine = Machine(enabled: bool, strategy: string, hostname: Option<string>, ip: string)

  datatype Failure = WakeError(message: string) | ValueError(message: string)

  /** What the world answers during one wake: the machine found, the UUID and clock readings drawn, and how the
      strategy fares (None when it returns, the text of its exception when it raises). */
  datatype WakeWorld = WakeWorld(
    machine: Option<Machine>, uuid: AttemptId, startedAt: Time, raised: Option<string>, now: Time)

  /** `strategy_override or machine.wake_strategy`: an empty override counts as none. */
  function StrategyName(o: WakeOrder, m: Machine): string {
    if o.strategyOverride.Some? && o.strategyOverride.value != "" then o.strategyOverride.value else m.strategy
  }

  function RowOf(o: WakeOrder, m: Machine, startedAt: Time): Attempt {
    Attempt(o.machine, StrategyName(o, m), Pending, o.ensureOnline, o.pollTimeout, startedAt, None, None)
  }

  /** Wake gets as far as sending the packet, and the packet goes out. */
  predicate Sends(o: WakeOrder, w: WakeWorld) {
    w.machine.Some? && w.machine.value.enabled && IsKnownStrategy(StrategyName(o, w.machine.value)) && w.raised.None?
  }

  /** What a wake writes. */
  function WakeLog(o: WakeOrder, w: WakeWorld): Log {
    if w.machine.None? || !w.machine.value.enabled then []
    else
      var row := RowOf(o, w.machine.value, w.startedAt);
      if !IsKnownStrategy(row.strategy) then [Insert(w.uuid, row)]
      else if w.raised.None? then [Insert(w.uuid, row), Update(w.uuid, Sent, None, None)]
      else [Insert(w.uuid, row), Update(w.uuid, Failed, w.raised, Some(w.now))]
  }

  /** A row inserted and then updated at most once, whatever the session did before. */
  lemma OwnRow(t: Table, log: Log, id: AttemptId, row: Attempt, next: Log)
    requires next == [] || (|next| == 1 && next[0].Update? && next[0].id == id)
    ensures log + [Insert(id, row)] + next == log + ([Insert(id, row)] + next)
    ensures var t' := Apply(t, log + [Insert(id, row)] + next);
            id in t' && t'[id] == if next == [] then row else Patched(row, next[0])
  {
    ApplyConcat(t, log, [Insert(id, row)] + next);
    ApplyShort(Apply(t, log), [Insert(id, row)] + next);
    assert log + [Insert(id, row)] + next == log + ([Insert(id, row)] + next);
  }

  /** The table with the row of a wake that succeeded. */
  lemma SentRow(seen: Table, o: WakeOrder, w: WakeWorld)
    requires Sends(o, w)
    ensures var row := RowOf(o, w.machine.value, w.startedAt);
            && WakeLog(o, w) == [Insert(w.uuid, row), SentWrite(w.uuid)]
            && Apply(seen, WakeLog(o, w)) == seen[w.uuid := row.(status := Sent)]
  {
    ApplyShort(seen, WakeLog(o, w));
  }

  /** What a session that did something else before sees of the row. */
  lemma MadeRow(t: Table, log: Log, o: WakeOrder, w: WakeWorld)
    requires w.machine.Some? && w.machine.value.enabled
    ensures w.uuid in Apply(t, log + WakeLog(o, w))
    ensures var made, row := Apply(t, log + WakeLog(o, w))[w.uuid], RowOf(o, w.machine.value, w.startedAt);
            made == if !IsKnownStrategy(row.strategy) then row
                    else if w.raised.None? then row.(status := Sent)
                    else row.(status := Failed, error := w.raised, finishedAt := Some(w.now))
  {
    var row, woken := RowOf(o, w.machine.value, w.startedAt), WakeLog(o, w);
    assert log + woken == log + [Insert(w.uuid, row)] + woken[1..];
    OwnRow(t, log, w.uuid, row, woken[1..]);
  }

  /** `WakeService.wake`. A missing or disabled machine leaves no row. Otherwise exactly one row is made, and with a
      known strategy it is at the end either sent and its id returned, or failed with error and finish time and
      WakeError raised. Other sessions may commit between any two statements. */
  method Wake(session: AttemptSession, o: WakeOrder, world: WakeWorld) returns (r: Result<AttemptId, Failure>)
    requires world.uuid !in session.committed && world.uuid !in Touched(session.log)
    modifies session`log, session`committed
    ensures Evolves(old(session.committed), session.committed, Touched(old(session.log)))
    ensures r.Success? <==> Sends(o, world)
    ensures session.log == old(session.log) + WakeLog(o, world)
    ensures world.machine.None? || !world.machine.value.enabled ==> r.Failure? && r.error.WakeError? && WakeLog(o, world) == []
    ensures world.machine.Some? && world.machine.value.enabled ==>
              world.uuid in session.View()
              && var made, m := session.View()[world.uuid], world.machine.value;
                 && made.machine == o.machine && made.ensureOnline == o.ensureOnline && made.pollTimeout == o.pollTimeout
                 && made.startedAt == world.startedAt
                 && made.strategy == (if o.strategyOverride.None? || o.strategyOverride == Some("") then m.strategy
                                      else o.strategyOverride.value)
                 && if made.strategy != "etherwake" && made.strategy != "udp_broadcast" then
                      && r.Failure? && r.error.ValueError?
                      && made.status == Pending && made.error == None && made.finishedAt == None
                    else if world.raised.None? then
                      && r == Success(world.uuid)
                      && made.status == Sent && made.error == None && made.finishedAt == None
                    else
                      && r.Failure? && r.error.WakeError?
                      && made.status == Failed && made.error == world.raised && made.finishedAt == Some(world.now)
  {
    if world.machine.None? {
      return Failure(WakeError("Machine not found"));
    }
    var machine := world.machine.value;
    if !machine.enabled {
      return Failure(WakeError("Machine is disabled"));
    }
    var row := RowOf(o, machine, world.startedAt);
    session.Create(world.uuid, row);
    assert Touched(old(session.log)) <= Touched(session.log);
    session.Await();
    MadeRow(session.committed, old(session.log), o, world);
    if !IsKnownStrategy(row.strategy) {
      return Failure(ValueError("Unknown wake strategy"));
    }
    ghost var created := session.log;
    if world.raised.None? {
      session.UpdateStatus(world.uuid, Sent, None, None);
      r := Success(world.uuid);
    } else {
      session.UpdateStatus(world.uuid, Failed, world.raised, Some(world.now));
      r := Failure(WakeError("Wake failed"));
    }
    assert session.log == created + [session.log[|created|]] == old(session.log) + WakeLog(o, world);
  }

  /** POST /machines/{id}/wake/direct: the request commits when the handler returns and rolls back when it raises.
      It publishes one SENT row or nothing at all, however the wake fails. */
  method DirectWake(session: AttemptSession, o: WakeOrder, world: WakeWorld) returns (r: Result<AttemptId, Failure>)
    requires session.log == [] && session.published == []
    requires world.uuid !in session.committed
    modifies session
    ensures session.log == []
    ensures r.Success? <==> Sends(o, world)
    ensures r.Failure? ==> session.published == [] && Evolves(old(session.committed), session.committed, {})
    ensures r.Success? ==>
              && r.value == world.uuid && world.machine.Some?
              && session.published == [Insert(r.value, RowOf(o, world.machine.value, world.startedAt)), SentWrite(r.value)]
              && r.value in session.committed
              && session.committed[r.value] == RowOf(o, world.machine.value, world.startedAt).(status := Sent)
              && session.committed[r.value].machine == o.machine && session.committed[r.value].error == None
              && session.committed[r.value].finishedAt == None
              && Evolves(old(session.committed), session.committed - {r.value}, {})
  {
    r := Wake(session, o, world);
    assert session.log == WakeLog(o, world);
    if r.Success? {
      SentRow(session.committed, o, world);
      session.Commit();
    } else {
      session.Rollback();
    }
  }
}
