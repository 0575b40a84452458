/** The wake_attempts table, the statements that write it, and the session that sends them:
    SqlWakeAttemptRepository of app/persistence/repositories.py. */
module AttemptTable {
  import opened Wrappers
  import opened AttemptStatuses

  type AttemptId = string
  type MachineId = string

  /** A point in time, in microseconds (the resolution of the source's timestamps). */
  type Time = int

  datatype Attempt = Attempt(
    machine: MachineId, strategy: string, status: AttemptStatus, ensureOnline: bool, pollTimeout: int,
    startedAt: Time, error: Option<string>, finishedAt: Option<Time>)

  type Table = map<AttemptId, Attempt>

  /** One statement: the INSERT of `create`, or the partial UPDATE of `update_status`. */
  datatype Write =
    | Insert(id: AttemptId, row: Attempt)
    | Update(id: AttemptId, status: AttemptStatus, error: Option<string>, finishedAt: Option<Time>)

  /** The statements of a transaction, in order. */
  type Log = seq<Write>

  /** `update_status` names the status always, and the other two columns only when they are given. */
  function Patched(row: Attempt, w: Write): Attempt
    requires w.Update?
  {
    row.(status := w.status,
         error := if w.error.Some? then w.error else row.error,
         finishedAt := if w.finishedAt.Some? then w.finishedAt else row.finishedAt)
  }

  /** An UPDATE of an id that is not in the table matches no row. */
  function Write1(t: Table, w: Write): Table {
    match w
    case Insert(id, row) => t[id := row]
    case Update(id, _, _, _) => if id in t then t[id := Patched(t[id], w)] else t
  }

  function Apply(t: Table, log: Log): Table {
    if log == [] then t else Write1(Apply(t, log[..|log| - 1]), log[|log| - 1])
  }

  function Touched(log: Log): set<AttemptId> {
    set w | w in log :: w.id
  }

  predicate IsActive(row: Attempt) {
    !row.status.IsTerminal()
  }

  /** The WHERE clause of `get_active_for_machine`. */
  predicate IsActiveFor(t: Table, m: MachineId, id: AttemptId) {
    id in t && t[id].machine == m && t[id].status in {Pending, Sent, Waking}
  }

  /** What ORDER BY started_at DESC LIMIT 1 may return; rows that started together may come in any order. */
  predicate IsLatestActive(t: Table, m: MachineId, id: AttemptId) {
    IsActiveFor(t, m, id) && forall x :: x in t && IsActiveFor(t, m, x) ==> t[x].startedAt <= t[id].startedAt
  }

  /** The finish time is there exactly for a terminal row, the error exactly for a failed or timed-out one. */
  predicate Consistent(row: Attempt) {
    && (row.finishedAt.Some? <==> row.status.IsTerminal())
    && (row.error.Some? <==> row.status in {Failed, Timeout})
  }

  /** The statuses written to row `id`, oldest first; updates that match no row write nothing. */
  function History(log: Log, id: AttemptId): seq<AttemptStatus> {
    if log == [] then [] else Note(History(log[..|log| - 1], id), log[|log| - 1], id)
  }

  /** One more write after the history `h` of row `id`. */
  function Note(h: seq<AttemptStatus>, w: Write, id: AttemptId): seq<AttemptStatus> {
    if w.id != id then h
    else if w.Insert? then h + [w.row.status]
    else if h == [] then h
    else h + [w.status]
  }

  // ---- Lemmas about replaying a log ----

  lemma {:induction false} ApplyConcat(t: Table, a: Log, b: Log)
    ensures Apply(t, a + b) == Apply(Apply(t, a), b)
    decreases |b|
  {
    if b == [] {
      assert a + b == a;
    } else {
      assert (a + b)[..|a + b| - 1] == a + b[..|b| - 1];
      ApplyConcat(t, a, b[..|b| - 1]);
    }
  }

  /** A log changes no row outside the ids it touches, and never removes a row. */
  lemma {:induction false} ApplyFrame(t: Table, log: Log)
    ensures t.Keys <= Apply(t, log).Keys <= t.Keys + Touched(log)
    ensures forall id :: id in t && id !in Touched(log) ==> Apply(t, log)[id] == t[id]
  {
    if log != [] {
      ApplyFrame(t, log[..|log| - 1]);
      assert log[|log| - 1] in log;
      assert forall w :: w in log[..|log| - 1] ==> w in log;
    }
  }

  /** What a replay leaves in a row depends on the starting table at that row only. */
  lemma {:induction false} ApplyLocal(t: Table, u: Table, log: Log, id: AttemptId)
    requires id in t <==> id in u
    requires id in t ==> t[id] == u[id]
    ensures id in Apply(t, log) <==> id in Apply(u, log)
    ensures id in Apply(t, log) ==> Apply(t, log)[id] == Apply(u, log)[id]
  {
    if log != [] {
      ApplyLocal(t, u, log[..|log| - 1], id);
    }
  }

  /** A row exists exactly when something was written to it, and its status is the last one written. */
  lemma {:induction false} StatusIsLastWritten(log: Log, id: AttemptId)
    ensures id in Apply(map[], log) <==> History(log, id) != []
    ensures var h := History(log, id); h != [] ==> Apply(map[], log)[id].status == h[|h| - 1]
  {
    if log != [] {
      StatusIsLastWritten(log[..|log| - 1], id);
    }
  }

  /** Among the active rows of a machine one started last, so the query finds a row whenever there is one. */
  lemma {:induction false} LatestActiveExists(t: Table, m: MachineId, ids: set<AttemptId>, id: AttemptId) returns (top: AttemptId)
    requires id in ids && forall x :: x in ids ==> IsActiveFor(t, m, x)
    ensures top in ids && IsActiveFor(t, m, top)
    ensures forall x :: x in ids && x in t ==> t[x].startedAt <= t[top].startedAt
    decreases |ids|
  {
    if x :| x in ids && t[x].startedAt > t[id].startedAt {
      var rest := ids - {id};
      assert ids == rest + {id};
      top := LatestActiveExists(t, m, rest, x);
    } else {
      top := id;
    }
  }

  /** A database session on the attempts. `committed` is what the session can see of other transactions; under
      READ COMMITTED it moves whenever another session commits. `log` holds this transaction's own statements,
      `published` what earlier transactions of this session have committed. */
  class AttemptSession {
    var committed: Table
    var log: Log
    ghost var published: Log

    constructor (committed: Table)
      ensures this.committed == committed && log == [] && published == []
    {
      this.committed, log, published := committed, [], [];
    }

    /** What a statement of this session reads: committed rows, overlaid with its own writes. */
    function View(): Table
      reads this
    {
      Apply(committed, log)
    }

    /** Other sessions run: they may commit new rows and change rows this transaction holds no lock on. */
    method Await()
      modifies this`committed
      ensures Evolves(old(committed), committed, Touched(log))
    {
      assert Evolves(committed, committed, Touched(log));
      var moved :| Evolves(committed, moved, Touched(log));
      committed := moved;
    }

    /** `create`: the row becomes visible to this session at once. `id` is the fresh UUID. */
    method Create(id: AttemptId, row: Attempt)
      modifies this`log
      ensures log == old(log) + [Insert(id, row)]
      ensures View() == old(View())[id := row]
    {
      ghost var before := log;
      log := log + [Insert(id, row)];
      assert log[..|log| - 1] == before;
    }

    /** `update_status`: a partial update of one row, or of none. */
    method UpdateStatus(id: AttemptId, status: AttemptStatus, error: Option<string>, finishedAt: Option<Time>)
      modifies this`log
      ensures log == old(log) + [Update(id, status, error, finishedAt)]
      ensures id !in old(View()) ==> View() == old(View())
      ensures id in old(View()) ==>
                && View().Keys == old(View()).Keys
                && (forall x :: x in View() && x != id ==> View()[x] == old(View())[x])
                && View()[id].status == status
                && View()[id].error == (if error == None then old(View())[id].error else error)
                && View()[id].finishedAt == (if finishedAt == None then old(View())[id].finishedAt else finishedAt)
                && View()[id].startedAt == old(View())[id].startedAt && View()[id].machine == old(View())[id].machine
                && View()[id].strategy == old(View())[id].strategy && View()[id].ensureOnline == old(View())[id].ensureOnline
                && View()[id].pollTimeout == old(View())[id].pollTimeout
    {
      ghost var before := log;
      log := log + [Update(id, status, error, finishedAt)];
      assert log[..|log| - 1] == before;
    }

    /** `get_active_for_machine`. */
    method GetActiveForMachine(m: MachineId) returns (r: Option<AttemptId>)
      ensures r.None? <==> forall id :: !IsActiveFor(View(), m, id)
      ensures r.None? <==> forall id :: id in View() && View()[id].machine == m ==> View()[id].status in {Online, Failed, Timeout}
      ensures r.Some? ==> IsLatestActive(View(), m, r.value)
      ensures r.Some? ==>
                && r.value in View() && View()[r.value].machine == m
                && View()[r.value].status in {Pending, Sent, Waking}
                && forall id :: id in View() && View()[id].machine == m && View()[id].status in {Pending, Sent, Waking} ==>
                     View()[id].startedAt <= View()[r.value].startedAt
    {
      var t := View();
      var ids := set id | id in t.Keys && IsActiveFor(t, m, id);
      assert forall id :: IsActiveFor(t, m, id) <==> id in ids;
      forall id | id in t && t[id].machine == m && t[id].status !in {Online, Failed, Timeout}
        ensures id in ids
      {
        assert t[id].status.Pending? || t[id].status.Sent? || t[id].status.Waking?;
        assert IsActiveFor(t, m, id);
      }
      if ids == {} {
        return None;
      }
      ghost var some :| some in ids;
      ghost var top := LatestActiveExists(t, m, ids, some);
      assert IsLatestActive(t, m, top);
      var id :| id in ids && IsLatestActive(t, m, id);
      r := Some(id);
    }

    method Commit()
      modifies this
      ensures committed == old(View()) && log == [] && published == old(published) + old(log)
    {
      committed, published, log := View(), published + log, [];
    }

    method Rollback()
      modifies this`log
      ensures log == []
    {
      log := [];
    }
  }

  /** How the committed table may move under a transaction that holds row locks: rows stay, locked rows are
      neither changed nor inserted by others. */
  predicate Evolves(before: Table, after: Table, locks: set<AttemptId>) {
    && before.Keys <= after.Keys
    && (forall id :: id in before && id in locks ==> after[id] == before[id])
    && (forall id :: id in after && id !in before ==> id !in locks)
  }

  /** Rows this transaction has written read the same for it before and after other sessions ran. */
  lemma OwnRowsAreStable(before: Table, after: Table, log: Log)
    requires Evolves(before, after, Touched(log))
    ensures forall id :: id in Touched(log) ==>
                           && (id in Apply(before, log) <==> id in Apply(after, log))
                           && (id in Apply(before, log) ==> Apply(after, log)[id] == Apply(before, log)[id])
  {
    forall id | id in Touched(log)
      ensures id in Apply(before, log) <==> id in Apply(after, log)
      ensures id in Apply(before, log) ==> Apply(after, log)[id] == Apply(before, log)[id]
    {
      ApplyLocal(before, after, log, id);
    }
  }
}
