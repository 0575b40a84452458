/** The wake-attempt state machine: app/domain/wake_attempt.py. */
module AttemptStatuses {

  datatype AttemptStatus = Pending | Sent | Waking | Online | Failed | Timeout
  {
    /** The transition table, row by row. */
    predicate CanTransitionTo(next: AttemptStatus) {
      match this
      case Pending => next in {Sent, Failed}
      case Sent => next in {Waking, Online, Failed, Timeout}
      case Waking => next in {Online, Failed, Timeout}
      case Online => false
      case Failed => false
      case Timeout => false
    }

    predicate IsTerminal() {
      this in {Online, Failed, Timeout}
    }
  }

  /** Each status in `h` may follow the one before it. */
  predicate IsPath(h: seq<AttemptStatus>) {
    forall i :: 0 < i < |h| ==> h[i - 1].CanTransitionTo(h[i])
  }

  /** How far along the life of an attempt a status is. */
  function Rank(s: AttemptStatus): nat {
    match s
    case Pending => 0
    case Sent => 1
    case Waking => 2
    case _ => 3
  }

  /** The table in other words: every step climbs, and from PENDING it leads to SENT or FAILED only. */
  lemma StepsClimb(a: AttemptStatus, b: AttemptStatus)
    ensures a.CanTransitionTo(b) <==> Rank(a) < Rank(b) && (a == Pending ==> b in {Sent, Failed})
  {
  }

  lemma PathsClimb(h: seq<AttemptStatus>)
    requires IsPath(h)
    ensures forall i :: 0 <= i < |h| ==> i <= Rank(h[i])
    ensures forall i :: 0 <= i < |h| - 1 ==> Rank(h[i]) < 3
  {
    for n := 0 to |h|
      invariant forall i :: 0 <= i < n ==> i <= Rank(h[i])
      invariant forall i :: 0 <= i < n - 1 ==> Rank(h[i]) < 3
    {
      assert n > 0 ==> h[n - 1].CanTransitionTo(h[n]);
    }
  }

  /** The table has no cycle, and its dead ends are exactly the terminal statuses: a path holds at most
      four statuses, a terminal one can only come last, and a path that does not end in a terminal status can be
      extended, in particular to FAILED. */
  lemma PathsEndInTerminal(h: seq<AttemptStatus>)
    requires IsPath(h) && h != []
    ensures |h| <= 4
    ensures forall i :: 0 <= i < |h| && h[i].IsTerminal() ==> i == |h| - 1
    ensures h[|h| - 1].IsTerminal() <==> forall next :: !IsPath(h + [next])
    ensures !h[|h| - 1].IsTerminal() ==> IsPath(h + [Failed])
  {
    forall next {
      PathExtends(h, [next]);
    }
    PathsClimb(h);
    if !h[|h| - 1].IsTerminal() {
      assert h[|h| - 1].CanTransitionTo(Failed);
      assert IsPath(h + [Failed]);
    }
  }

  /** Appending `t` to a path keeps it a path exactly when `t` is one and the seam is a legal transition. */
  lemma PathExtends(h: seq<AttemptStatus>, t: seq<AttemptStatus>)
    requires h != [] && t != []
    ensures IsPath(h + t) <==> IsPath(h) && IsPath(t) && h[|h| - 1].CanTransitionTo(t[0])
  {
    var ht := h + t;
    if IsPath(ht) {
      forall i | 0 < i < |h| ensures h[i - 1].CanTransitionTo(h[i]) {
        assert ht[i - 1].CanTransitionTo(ht[i]);
      }
      forall i | 0 < i < |t| ensures t[i - 1].CanTransitionTo(t[i]) {
        assert ht[|h| + i - 1].CanTransitionTo(ht[|h| + i]);
      }
      assert ht[|h| - 1].CanTransitionTo(ht[|h|]);
    } else {
      var i :| 0 < i < |ht| && !ht[i - 1].CanTransitionTo(ht[i]);
      if i < |h| {
        assert !h[i - 1].CanTransitionTo(h[i]);
      } else if i > |h| {
        assert !t[i - |h| - 1].CanTransitionTo(t[i - |h|]);
      }
    }
  }
}
