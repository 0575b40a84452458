/** The job payload: what `wake_machine` puts into it (app/api/wake.py) and how the worker reads it back
    (worker/main.py, `_process_job`). */
module Payloads {
  import opened Wrappers
  import PythonText

  /** The JSON scalars a payload holds. */
  datatype Json = JNull | JBool(b: bool) | JInt(n: int) | JStr(s: string)

  /** The payload's keys: "machine_id", "attempt_id" and so on. */
  datatype Key =
    | MachineId | AttemptId | EnsureOnline | PollTimeoutS | StrategyOverride | ActorType | ActorId | Error

  type Payload = map<Key, Json>

  /** app/domain/machine.py. */
  datatype WakeStrategy = Etherwake | UdpBroadcast
  {
    function Value(): string {
      match this
      case Etherwake => "etherwake"
      case UdpBroadcast => "udp_broadcast"
    }
  }

  /** The two-entry table of `get_strategy`. */
  predicate IsKnownStrategy(name: string) {
    name == "etherwake" || name == "udp_broadcast"
  }

  /** What a client of POST /machines/{id}/wake asked for, with the id of the attempt row made for it. */
  datatype WakeRequest = WakeRequest(
    machine: string, attempt: string, ensureOnline: bool, pollTimeout: int, strategy: Option<WakeStrategy>, user: string)

  /** What the worker acts on. */
  datatype WakeOrder = WakeOrder(
    machine: string, attempt: string, ensureOnline: bool, pollTimeout: int, strategyOverride: Option<string>,
    actorType: string, actorId: string)

  function Encode(r: WakeRequest): Payload {
    map[
      MachineId := JStr(r.machine),
      AttemptId := JStr(r.attempt),
      EnsureOnline := JBool(r.ensureOnline),
      PollTimeoutS := JInt(r.pollTimeout),
      StrategyOverride := if r.strategy.Some? then JStr(r.strategy.value.Value()) else JNull,
      ActorType := JStr("user"),
      ActorId := JStr(r.user)
    ]
  }

  /** `mark_error` replaces the payload. */
  function ErrorPayload(error: string): Payload {
    map[Error := JStr(error)]
  }

  function Get(p: Payload, key: Key, default: Json): Json {
    if key in p then p[key] else default
  }

  /** Python's str(). */
  function Str(j: Json): string {
    match j
    case JNull => "None"
    case JBool(b) => if b then "True" else "False"
    case JInt(n) => PythonText.Decimal(n)
    case JStr(s) => s
  }

  /** Python's bool(). */
  predicate Truthy(j: Json) {
    match j
    case JNull => false
    case JBool(b) => b
    case JInt(n) => n != 0
    case JStr(s) => s != ""
  }

  /** The head of `_process_job`; the one error is the ValueError of int(). */
  function Decode(p: Payload): Result<WakeOrder, string> {
    var timeout := PythonText.ParseInt(Str(Get(p, PollTimeoutS, JInt(120))), 10);
    if timeout.None? then Failure("invalid literal for int() with base 10")
    else
      var override := Get(p, StrategyOverride, JNull);
      Success(WakeOrder(
                Str(Get(p, MachineId, JStr(""))),
                Str(Get(p, AttemptId, JStr(""))),
                Truthy(Get(p, EnsureOnline, JBool(false))),
                timeout.value,
                if Truthy(override) then Some(Str(override)) else None,
                Str(Get(p, ActorType, JStr("system"))),
                Str(Get(p, ActorId, JStr("worker")))))
  }

  /** The worker reads back exactly what the client asked for, whatever it asked for. */
  lemma DecodeEncode(r: WakeRequest)
    ensures Decode(Encode(r)).Success?
    ensures var o := Decode(Encode(r)).value;
            && o.machine == r.machine && o.attempt == r.attempt
            && o.ensureOnline == r.ensureOnline && o.pollTimeout == r.pollTimeout
            && (r.strategy == None ==> o.strategyOverride == None)
            && (r.strategy.Some? ==> o.strategyOverride == Some(r.strategy.value.Value()))
            && o.actorType == "user" && o.actorId == r.user
  {
    PythonText.DecimalRoundTrip(r.pollTimeout);
    var p := Encode(r);
    assert Str(p[PollTimeoutS]) == PythonText.Decimal(r.pollTimeout);
    assert Truthy(p[StrategyOverride]) <==> r.strategy.Some?;
  }

  /** Two requests with the same payload are the same request: nothing is lost on the way through the queue. */
  lemma EncodeIsInjective(r: WakeRequest, q: WakeRequest)
    requires Encode(r) == Encode(q)
    ensures r == q
  {
    DecodeEncode(r);
    DecodeEncode(q);
    assert Etherwake.Value()[0] != UdpBroadcast.Value()[0];
  }

  /** A value that Python takes for false. */
  predicate IsFalsy(p: Payload, key: Key) {
    key !in p || p[key] in {JNull, JBool(false), JInt(0), JStr("")}
  }

  /** The worker accepts every payload but those whose timeout is no integer text; what is missing has its default. */
  lemma DecodeIsTotalButForTimeout(p: Payload)
    ensures Decode(p).Failure? <==>
              PollTimeoutS in p
              && (p[PollTimeoutS].JNull? || p[PollTimeoutS].JBool?
                  || (p[PollTimeoutS].JStr? && PythonText.ParseInt(p[PollTimeoutS].s, 10) == None))
    ensures Decode(p).Success? ==>
              var o := Decode(p).value;
              && (MachineId !in p ==> o.machine == "") && (AttemptId !in p ==> o.attempt == "")
              && (PollTimeoutS !in p ==> o.pollTimeout == 120)
              && (PollTimeoutS in p && p[PollTimeoutS].JInt? ==> o.pollTimeout == p[PollTimeoutS].n)
              && (ActorType !in p ==> o.actorType == "system") && (ActorId !in p ==> o.actorId == "worker")
              && (o.ensureOnline <==> !IsFalsy(p, EnsureOnline))
              && (o.strategyOverride == None <==> IsFalsy(p, StrategyOverride))
              && (StrategyOverride in p && p[StrategyOverride].JStr? && p[StrategyOverride].s != ""
                  ==> o.strategyOverride == Some(p[StrategyOverride].s))
  {
    PythonText.DecimalRoundTrip(120);
    if PollTimeoutS in p && p[PollTimeoutS].JInt? {
      PythonText.DecimalRoundTrip(p[PollTimeoutS].n);
    }
    WordsAreNoNumbers();
  }

  lemma WordsAreNoNumbers()
    ensures forall word :: word in ["None", "True", "False"] ==> PythonText.ParseInt(word, 10) == None
  {
    NoNumber("None");
    NoNumber("True");
    NoNumber("False");
  }

  lemma NoNumber(word: string)
    requires word in ["None", "True", "False"]
    ensures PythonText.ParseInt(word, 10) == None
  {
    PythonText.StripKeeps(word);
    assert word[|word| - 1] == 'e';
  }

  /** The names a request can carry are the ones `get_strategy` knows. */
  lemma KnownStrategies(name: string)
    ensures Etherwake.Value() == "etherwake" && UdpBroadcast.Value() == "udp_broadcast"
    ensures IsKnownStrategy(name) <==> exists s: WakeStrategy :: s.Value() == name
  {
    if IsKnownStrategy(name) {
      assert name == Etherwake.Value() || name == UdpBroadcast.Value();
    }
  }
}
