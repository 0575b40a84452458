/** Building runs: playing a script of events from a state, and putting it at the end of a run. */
module Runs {
  import opened Wrappers
  import opened Pipeline

  function Last(r: Run): State
    requires r.states != []
  {
    r.states[|r.states| - 1]
  }

  function Extend(r: Run, e: Event): Run
    requires r.states != [] && Enabled(Last(r), e)
  {
    Run(r.states + [Do(Last(r), e)], r.events + [e])
  }

  lemma ExtendIsRun(n: nat, r: Run, e: Event)
    requires IsRun(n, r) && Enabled(Last(r), e)
    ensures IsRun(n, Extend(r, e)) && Last(Extend(r, e)) == Do(Last(r), e)
  {
    var r' := Extend(r, e);
    forall i | 0 <= i < |r'.events| ensures Follows(r', i) {
      if i < |r.events| { assert Follows(r, i); }
    }
  }

  lemma EmptyRun(n: nat) returns (r: Run)
    ensures IsRun(n, r) && Last(r) == Initial(n)
  {
    r := Run([Initial(n)], []);
  }

  /** The state after the events of a script, if each is enabled in its turn. */
  function Play(s: State, es: seq<Event>): Option<State> {
    if es == [] then Some(s)
    else
      var before, e := Play(s, es[..|es| - 1]), es[|es| - 1];
      if before.Some? && Enabled(before.value, e) then Some(Do(before.value, e)) else None
  }

  /** A script that can be played at the end of a run continues it. */
  lemma {:induction false} ScriptContinuesRun(n: nat, r: Run, es: seq<Event>) returns (r': Run)
    requires IsRun(n, r) && Play(Last(r), es).Some?
    ensures IsRun(n, r') && r.states <= r'.states && r'.events == r.events + es
    ensures Last(r') == Play(Last(r), es).value
    decreases |es|
  {
    if es == [] {
      r' := r;
      assert r.events + [] == r.events;
    } else {
      var front, e := es[..|es| - 1], es[|es| - 1];
      var r1 := ScriptContinuesRun(n, r, front);
      ExtendIsRun(n, r1, e);
      r' := Extend(r1, e);
      assert front + [e] == es;
    }
  }

  /** Scripts are played one after the other. */
  lemma {:induction false} PlayConcat(s: State, a: seq<Event>, b: seq<Event>)
    requires Play(s, a).Some?
    ensures Play(s, a + b) == Play(Play(s, a).value, b)
    decreases |b|
  {
    if b == [] {
      assert a + b == a;
    } else {
      assert (a + b)[..|a + b| - 1] == a + b[..|b| - 1];
      PlayConcat(s, a, b[..|b| - 1]);
    }
  }

  lemma PlayBoth(s: State, a: seq<Event>, s1: State, b: seq<Event>, s2: State)
    requires Play(s, a) == Some(s1) && Play(s1, b) == Some(s2)
    ensures Play(s, a + b) == Some(s2)
  {
    PlayConcat(s, a, b);
  }

  lemma PlayOne(s: State, e: Event)
    requires Enabled(s, e)
    ensures Play(s, [e]) == Some(Do(s, e))
  {
    assert [e][..0] == [];
    assert Play(s, []) == Some(s);
  }

  lemma PlayMore(s: State, es: seq<Event>, e: Event)
    requires Play(s, es).Some? && Enabled(Play(s, es).value, e)
    ensures Play(s, es + [e]) == Some(Do(Play(s, es).value, e))
  {
    assert (es + [e])[..|es + [e]| - 1] == es;
  }

  /** The state with another worker in place `w`. */
  function With(s: State, w: WorkerId, wk: Worker): State
    requires w < |s.workers|
  {
    s.(workers := s.workers[w := wk])
  }

  /** A step that publishes nothing leaves the attempts and the ledger alone. */
  lemma SilentStep(s: State, e: Event)
    requires InPlace(s, e) && Published(s, e) == []
    ensures Do(s, e).attempts == s.attempts && Do(s, e).ledger == s.ledger
  {
    assert s.ledger + Tagged(Publisher(s, e), []) == s.ledger;
  }

  /** An action is seen by nobody but its worker. */
  lemma ActIsLocal(s: State, w: WorkerId, a: Action)
    requires InPlace(s, Act(w, a))
    ensures Do(s, Act(w, a)) == With(s, w, Acted(s.workers[w], a))
  {
    SilentStep(s, Act(w, a));
  }
}
