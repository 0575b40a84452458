/** Polling a machine until it is online or the attempt times out: app/services/ensure_online.py, with the two-signal
    probe of app/infra/state_probe.py and app/domain/probe.py. */
module EnsureOnline {
  import opened Wrappers
  import opened AttemptStatuses
  import opened AttemptTable
  import opened Pipeline
  import opened AttemptInvariants
  import PythonText

  const MICROS_PER_SECOND := 1_000_000

  datatype Signals = Signals(ping: bool, tcp: bool)

  /** How a host answers the ping and the TCP connect of one round of probing. */
  type Network = string -> Signals

  predicate Answers(net: Network, host: string) {
    net(host).ping || net(host).tcp
  }

  datatype Target = Target(hostname: Option<string>, ip: string)
  {
    predicate HasHostname() {
      hostname.Some? && hostname.value != ""
    }

    /** `machine.hostname or machine.ip_address`. */
    function Host(): string {
      if HasHostname() then hostname.value else ip
    }

    /** `machine.ip_address if machine.hostname else None`. */
    function Fallback(): Option<string> {
      if HasHostname() then Some(ip) else None
    }
  }

  /** `StateProbe.probe`, as its derived state: online exactly when the host answers, or else a non-empty fallback
      address other than the host does. */
  method Probe(host: string, fallback: Option<string>, net: Network) returns (online: bool)
    ensures online <==>
            || net(host).ping || net(host).tcp
            || (fallback.Some? && fallback.value != "" && fallback.value != host
                && (net(fallback.value).ping || net(fallback.value).tcp))
  {
    var ping, tcp := net(host).ping, net(host).tcp;
    if !(ping || tcp) && fallback.Some? && fallback.value != "" && fallback.value != host {
      ping, tcp := net(fallback.value).ping, net(fallback.value).tcp;
    }
    online := ping || tcp;
  }

  /** What one round of probing says of a machine. With a hostname: that, or a non-empty IP address, answers. Without
      one: the IP address answers. */
  predicate IsOnline(net: Network, m: Target) {
    if m.hostname.None? || m.hostname == Some("") then Answers(net, m.ip)
    else Answers(net, m.hostname.value) || (m.ip != "" && Answers(net, m.ip))
  }

  /** The world of one `run`: reading `k` of the clock at the top of the loop, and the network during round `k`. */
  datatype PollWorld = PollWorld(clock: nat -> Time, net: nat -> Network)

  /** The clock moves on by at least the poll interval from one round to the next: the sleep takes that long. */
  ghost predicate Advances(clock: nat -> Time, interval: int) {
    forall k: nat :: clock(k + 1) >= clock(k) + interval
  }

  /** Round `k` begins before the deadline. */
  predicate InTime(w: PollWorld, start: Time, timeout: int, k: nat) {
    w.clock(k) - start < timeout * MICROS_PER_SECOND
  }

  /** The first `k` rounds all begin in time and find the machine offline. */
  predicate OfflineFor(w: PollWorld, m: Target, start: Time, timeout: int, k: nat) {
    forall i: nat :: i < k ==> InTime(w, start, timeout, i) && !IsOnline(w.net(i), m)
  }

  /** Round `k` is the first that finds the machine online, and it begins in time. */
  predicate FirstOnline(w: PollWorld, m: Target, start: Time, timeout: int, k: nat) {
    OfflineFor(w, m, start, timeout, k) && InTime(w, start, timeout, k) && IsOnline(w.net(k), m)
  }

  /** The machine stays offline until the loop looks at the clock after the deadline. */
  predicate DeadlinePasses(w: PollWorld, m: Target, start: Time, timeout: int, k: nat) {
    OfflineFor(w, m, start, timeout, k) && !InTime(w, start, timeout, k)
  }

  /** The one write that ends a polling: ONLINE in the first round that finds the machine online, TIMEOUT at the first
      look at the clock after the deadline. */
  ghost predicate EndsPolling(x: Write, id: AttemptId, m: Target, start: Time, timeout: int, w: PollWorld) {
    x.Update? && x.id == id &&
    ((x.status == Online && x.error == None
      && exists k :: FirstOnline(w, m, start, timeout, k) && x.finishedAt == Some(w.clock(k)))
     || (x.status == Timeout && x.error == Some("Machine did not come online within " + PythonText.Decimal(timeout) + "s")
         && exists k :: DeadlinePasses(w, m, start, timeout, k) && x.finishedAt == Some(w.clock(k))))
  }

  /** So the status written tells what the network answered. */
  lemma StatusTells(x: Write, id: AttemptId, m: Target, start: Time, timeout: int, w: PollWorld)
    requires EndsPolling(x, id, m, start, timeout, w)
    ensures IsOutcome(x, id)
    ensures x.status == Online <==> exists k :: FirstOnline(w, m, start, timeout, k)
    ensures x.status == Timeout <==> exists k :: DeadlinePasses(w, m, start, timeout, k)
  {
    OutcomesExclude(w, m, start, timeout);
  }

  /** x / y rounded up, for x at least 0. */
  function CeilDiv(x: int, y: int): int
    requires y > 0
  {
    (x + y - 1) / y
  }

  function Remaining(w: PollWorld, start: Time, timeout: int): nat {
    var left := timeout * MICROS_PER_SECOND - (w.clock(0) - start);
    if left > 0 then left else 0
  }

  /** The poll loop after the WAKING write. It returns ONLINE exactly when some round begun in time finds the machine
      online and all earlier ones found it offline, TIMEOUT exactly when all rounds begun in time found it offline. No
      round begins at or after the deadline, and there are at most ceil(remaining / interval) of them. The terminal
      status, and nothing else, is written to the attempt. */
  method Poll(session: AttemptSession, id: AttemptId, m: Target, start: Time, timeout: int, interval: int, w: PollWorld)
    returns (r: AttemptStatus, rounds: nat)
    requires interval > 0 && Advances(w.clock, interval)
    modifies session`log, session`committed
    ensures r == Online || r == Timeout
    ensures r == Online <==> exists k :: FirstOnline(w, m, start, timeout, k)
    ensures r == Timeout <==> exists k :: DeadlinePasses(w, m, start, timeout, k)
    ensures forall k: nat :: k < rounds ==> InTime(w, start, timeout, k)
    ensures forall k: nat :: k < rounds ==> w.clock(k) - start < timeout * 1_000_000
    ensures r == Timeout ==> DeadlinePasses(w, m, start, timeout, rounds) && w.clock(rounds) - start >= timeout * 1_000_000
    ensures r == Online ==> rounds > 0 && FirstOnline(w, m, start, timeout, rounds - 1)
    ensures rounds <= CeilDiv(Remaining(w, start, timeout), interval)
    ensures rounds > 0 ==> (rounds - 1) * interval < timeout * 1_000_000 - (w.clock(0) - start)
    ensures |session.log| == |old(session.log)| + 1 && session.log[..|old(session.log)|] == old(session.log)
    ensures EndsPolling(session.log[|old(session.log)|], id, m, start, timeout, w)
    ensures session.log[|old(session.log)|].status == r
    ensures Evolves(old(session.committed), session.committed, Touched(old(session.log)))
  {
    rounds := 0;
    while true
      invariant OfflineFor(w, m, start, timeout, rounds)
      invariant session.log == old(session.log)
      invariant Evolves(old(session.committed), session.committed, Touched(old(session.log)))
      decreases timeout * MICROS_PER_SECOND - (w.clock(rounds) - start)
    {
      var elapsed := w.clock(rounds) - start;
      if elapsed >= timeout * MICROS_PER_SECOND {
        session.UpdateStatus(id, Timeout, Some("Machine did not come online within " + PythonText.Decimal(timeout) + "s"),
                             Some(w.clock(rounds)));
        r := Timeout;
        assert DeadlinePasses(w, m, start, timeout, rounds);
        break;
      }
      var online := Probe(m.Host(), m.Fallback(), w.net(rounds));
      session.Await();
      if online {
        session.UpdateStatus(id, Online, None, Some(w.clock(rounds)));
        r := Online;
        assert FirstOnline(w, m, start, timeout, rounds);
        rounds := rounds + 1;
        break;
      }
      session.Await();
      rounds := rounds + 1;
    }
    RoundsFit(w, start, timeout, interval, rounds);
    OutcomesExclude(w, m, start, timeout);
  }

  /** Rounds that all begin in time, an interval or more apart, are few. */
  lemma RoundsFit(w: PollWorld, start: Time, timeout: int, interval: int, rounds: nat)
    requires interval > 0 && Advances(w.clock, interval)
    requires forall k: nat :: k < rounds ==> InTime(w, start, timeout, k)
    ensures forall k: nat :: k < rounds ==> w.clock(k) - start < timeout * 1_000_000
    ensures rounds <= CeilDiv(Remaining(w, start, timeout), interval)
    ensures rounds > 0 ==> (rounds - 1) * interval < timeout * 1_000_000 - (w.clock(0) - start)
  {
    forall k: nat | k < rounds
      ensures w.clock(k) - start < timeout * 1_000_000
    {
      assert InTime(w, start, timeout, k);
    }
    if rounds > 0 {
      ClockAt(w.clock, interval, rounds - 1);
      assert InTime(w, start, timeout, rounds - 1);
      NextRoundCounts(rounds - 1, interval);
    }
    RoundsAreFew(rounds, Remaining(w, start, timeout), interval);
  }

  lemma {:induction false} ClockAt(clock: nat -> Time, interval: int, k: nat)
    requires Advances(clock, interval)
    ensures clock(k) >= clock(0) + k * interval
  {
    if k > 0 {
      ClockAt(clock, interval, k - 1);
      NextRoundCounts(k - 1, interval);
      assert clock(k - 1 + 1) >= clock(k - 1) + interval;
    }
  }

  lemma NextRoundCounts(rounds: nat, interval: int)
    ensures (rounds + 1) * interval == rounds * interval + interval
  {
  }

  lemma RoundsAreFew(rounds: nat, left: nat, interval: int)
    requires interval > 0 && (rounds > 0 ==> rounds * interval < left + interval)
    ensures rounds <= CeilDiv(left, interval)
  {
    var q := CeilDiv(left, interval);
    assert left + interval - 1 < (q + 1) * interval;
    if rounds > q {
      MulMonotone(q + 1, rounds, interval);
    }
  }

  lemma MulMonotone(x: int, y: int, z: int)
    requires x <= y && 0 <= z
    ensures x * z <= y * z
  {
  }

  /** The two outcomes exclude each other. */
  lemma OutcomesExclude(w: PollWorld, m: Target, start: Time, timeout: int)
    ensures !((exists k :: FirstOnline(w, m, start, timeout, k)) && (exists k :: DeadlinePasses(w, m, start, timeout, k)))
  {
    forall k: nat, l: nat | FirstOnline(w, m, start, timeout, k)
      ensures !DeadlinePasses(w, m, start, timeout, l)
    {
    }
  }

  /** If a round of probing and sleeping takes at most interval + probeTime, a TIMEOUT that follows at least one round
      is decided before timeout + interval + probeTime. */
  lemma TimeoutIsPrompt(w: PollWorld, m: Target, start: Time, timeout: int, interval: int, probeTime: int, k: nat)
    requires k > 0 && DeadlinePasses(w, m, start, timeout, k)
    requires forall i: nat :: w.clock(i + 1) <= w.clock(i) + interval + probeTime
    ensures timeout * 1_000_000 <= w.clock(k) - start < timeout * 1_000_000 + interval + probeTime
  {
    assert InTime(w, start, timeout, k - 1);
    assert w.clock(k - 1 + 1) <= w.clock(k - 1) + interval + probeTime;
  }

  /** `run` of an attempt id. It answers FAILED without writing when there is no such attempt; FAILED with an error when
      the machine is gone; otherwise it writes WAKING and polls. In every case but the first, its last write is
      terminal, so a transaction that holds a whole `run` never leaves the attempt WAKING. */
  method RunAttempt(session: AttemptSession, id: AttemptId, machine: Option<Target>, interval: int, w: PollWorld, now: Time)
    returns (r: AttemptStatus)
    requires interval > 0 && Advances(w.clock, interval)
    modifies session`log, session`committed
    ensures r.IsTerminal()
    ensures Evolves(old(session.committed), session.committed, Touched(old(session.log)))
    ensures old(id !in session.View()) ==> r == Failed && session.log == old(session.log)
    ensures old(id in session.View()) && machine.None? ==>
              r == Failed && session.log == old(session.log) + [FailedWrite(id, "Machine not found", now)]
    ensures old(id in session.View()) && machine.Some? ==>
              var row := old(session.View())[id];
              && (r == Online || r == Timeout)
              && (r == Online <==> exists k :: FirstOnline(w, machine.value, row.startedAt, row.pollTimeout, k))
              && |session.log| == |old(session.log)| + 2
              && session.log[..|old(session.log)|] == old(session.log)
              && session.log[|old(session.log)|] == WakingWrite(id)
              && EndsPolling(session.log[|old(session.log)| + 1], id, machine.value, row.startedAt, row.pollTimeout, w)
              && session.log[|old(session.log)| + 1].status == r
  {
    if id !in session.View() {
      return Failed;
    }
    var row := session.View()[id];
    if machine.None? {
      session.UpdateStatus(id, Failed, Some(MACHINE_GONE), Some(now));
      return Failed;
    }
    session.UpdateStatus(id, Waking, None, None);
    assert Touched(old(session.log)) <= Touched(session.log);
    var rounds;
    r, rounds := Poll(session, id, machine.value, row.startedAt, row.pollTimeout, interval, w);
  }
}
