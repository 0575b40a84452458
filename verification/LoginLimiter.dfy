/** The sliding-window login limiter: `_check_login_rate` of app/api/auth.py. */
module LoginLimiter {
  import opened Wrappers

  const LOGIN_WINDOW: real := 60.0
  const LOGIN_MAX_ATTEMPTS := 5

  /** The timestamps less than a window old, in their order: the list comprehension of the source. */
  function Recent(h: seq<real>, now: real): (r: seq<real>)
    ensures |r| <= |h|
  {
    if h == [] then []
    else if now - h[|h| - 1] < LOGIN_WINDOW then Recent(h[..|h| - 1], now) + [h[|h| - 1]]
    else Recent(h[..|h| - 1], now)
  }

  type Buckets = map<string, seq<real>>

  /** The dictionary is a defaultdict. */
  function Bucket(b: Buckets, ip: string): seq<real> {
    if ip in b then b[ip] else []
  }

  /** One call: the client's address and the clock reading. */
  datatype Call = Call(ip: string, now: real)

  // ---- What the limiter is for: the reference, which never forgets ----

  /** Every accepted login of `ip`, deciding each call on the whole accepted history of its address. */
  function Accepted(calls: seq<Call>, ip: string): seq<real> {
    if calls == [] then []
    else
      var h := Accepted(calls[..|calls| - 1], ip);
      var c := calls[|calls| - 1];
      if c.ip == ip && IsAllowed(h, c.now) then h + [c.now] else h
  }

  predicate IsAllowed(h: seq<real>, now: real) {
    |Recent(h, now)| < LOGIN_MAX_ATTEMPTS
  }

  /** Whether call `k` is accepted. */
  predicate AcceptedAt(calls: seq<Call>, k: nat)
    requires k < |calls|
  {
    IsAllowed(Accepted(calls[..k], calls[k].ip), calls[k].now)
  }

  /** Calls come one after another, each with a clock reading no earlier than the one before. */
  predicate InOrder(calls: seq<Call>) {
    forall i, k :: 0 <= i < k < |calls| ==> calls[i].now <= calls[k].now
  }

  /** `now` is no earlier than any call so far. */
  predicate NotBefore(calls: seq<Call>, now: real) {
    forall i :: 0 <= i < |calls| ==> calls[i].now <= now
  }

  /** The earlier logins of the same address, accepted less than 60 seconds before call `k`. */
  function RecentLogins(calls: seq<Call>, k: nat): set<nat>
    requires k < |calls|
  {
    set i: nat | i < k && calls[i].ip == calls[k].ip && AcceptedAt(calls, i) && calls[k].now - calls[i].now < 60.0
  }

  // ---- The limiter itself ----

  /** The limiter's dictionary after one call, and what it answered. */
  function Checked(b: Buckets, ip: string, now: real): (Buckets, bool) {
    var kept := Recent(Bucket(b, ip), now);
    if |kept| < LOGIN_MAX_ATTEMPTS then (b[ip := kept + [now]], true) else (b[ip := kept], false)
  }

  /** Each bucket is short, and pruned to any moment since the last call it is the pruned full history. */
  ghost predicate Tracks(b: Buckets, calls: seq<Call>) {
    && (forall ip :: |Bucket(b, ip)| <= LOGIN_MAX_ATTEMPTS)
    && forall ip, now :: NotBefore(calls, now) ==> Recent(Bucket(b, ip), now) == Recent(Accepted(calls, ip), now)
  }

  class Limiter {
    var buckets: Buckets
    ghost var calls: seq<Call>

    /** The calls so far were in order, and the buckets know of them what matters. */
    ghost predicate Valid()
      reads this
    {
      InOrder(calls) && Tracks(buckets, calls)
    }

    constructor ()
      ensures Valid() && calls == []
    {
      buckets, calls := map[], [];
    }

    /** `_check_login_rate`: prune, then refuse or record. It decides exactly as the reference that keeps the whole
        history does, although it keeps at most five timestamps for an address. */
    method Check(ip: string, now: real) returns (allowed: bool)
      requires Valid() && NotBefore(calls, now)
      modifies this
      ensures Valid() && calls == old(calls) + [Call(ip, now)]
      ensures allowed <==> AcceptedAt(calls, |old(calls)|)
      ensures allowed <==> |RecentLogins(calls, |old(calls)|)| < 5
      ensures forall x :: x in buckets ==> |buckets[x]| <= 5
      ensures (buckets, allowed) == Checked(old(buckets), ip, now)
    {
      var timestamps := Bucket(buckets, ip);
      buckets := buckets[ip := Recent(timestamps, now)];
      allowed := |buckets[ip]| < LOGIN_MAX_ATTEMPTS;
      if allowed {
        buckets := buckets[ip := buckets[ip] + [now]];
      }
      calls := calls + [Call(ip, now)];
      CheckTracks(old(buckets), old(calls), ip, now);
      AcceptedIffFewerThanFive(calls, |old(calls)|);
      assert forall x :: x in buckets ==> Bucket(buckets, x) == buckets[x];
      assert buckets == Checked(old(buckets), ip, now).0;
    }
  }

  lemma AcceptedStep(calls: seq<Call>, c: Call, x: string)
    ensures var h := Accepted(calls, x);
            Accepted(calls + [c], x) == if c.ip == x && IsAllowed(h, c.now) then h + [c.now] else h
  {
    assert (calls + [c])[..|calls|] == calls;
  }

  /** One call, as seen later from one address. */
  lemma CheckTracksAt(b: Buckets, calls: seq<Call>, c: Call, x: string, later: real)
    requires NotBefore(calls, c.now) && NotBefore(calls, later) && c.now <= later && Tracks(b, calls)
    ensures Recent(Bucket(Checked(b, c.ip, c.now).0, x), later) == Recent(Accepted(calls + [c], x), later)
  {
    AcceptedStep(calls, c, x);
    assert Recent(Bucket(b, x), c.now) == Recent(Accepted(calls, x), c.now);
    assert Recent(Bucket(b, x), later) == Recent(Accepted(calls, x), later);
    if x == c.ip {
      OneMoreCall(Bucket(b, x), Accepted(calls, x), c.now, later);
    }
  }

  /** One call keeps the dictionary in step with the full history, and decides as that history would. */
  lemma CheckTracks(b: Buckets, calls: seq<Call>, ip: string, now: real)
    requires InOrder(calls) && NotBefore(calls, now) && Tracks(b, calls)
    ensures InOrder(calls + [Call(ip, now)]) && Tracks(Checked(b, ip, now).0, calls + [Call(ip, now)])
    ensures Checked(b, ip, now).1 <==> AcceptedAt(calls + [Call(ip, now)], |calls|)
  {
    var calls' := calls + [Call(ip, now)];
    assert calls'[..|calls|] == calls;
    assert Recent(Bucket(b, ip), now) == Recent(Accepted(calls, ip), now);
    forall x
      ensures |Bucket(Checked(b, ip, now).0, x)| <= LOGIN_MAX_ATTEMPTS
    {
      assert |Bucket(b, x)| <= LOGIN_MAX_ATTEMPTS;
    }
    forall x, later | NotBefore(calls', later)
      ensures Recent(Bucket(Checked(b, ip, now).0, x), later) == Recent(Accepted(calls', x), later)
    {
      assert calls'[|calls|].now <= later && forall i :: 0 <= i < |calls| ==> calls'[i] == calls[i];
      CheckTracksAt(b, calls, Call(ip, now), x, later);
    }
  }

  /** The pruned bucket and the full history keep agreeing when both take one more call. */
  lemma OneMoreCall(bucket: seq<real>, h: seq<real>, now: real, later: real)
    requires now <= later && Recent(bucket, now) == Recent(h, now) && Recent(bucket, later) == Recent(h, later)
    ensures Recent(Recent(bucket, now), later) == Recent(h, later)
    ensures Recent(Recent(bucket, now) + [now], later) == Recent(h + [now], later)
  {
    PruneTwice(bucket, now, later);
    RecentAppend(Recent(bucket, now), now, later);
    RecentAppend(h, now, later);
  }

  // ---- Pruning ----

  lemma RecentAppend(h: seq<real>, t: real, now: real)
    ensures Recent(h + [t], now) == if now - t < LOGIN_WINDOW then Recent(h, now) + [t] else Recent(h, now)
  {
    assert (h + [t])[..|h|] == h;
  }

  /** Pruning earlier does not change what a later pruning leaves. */
  lemma {:induction false} PruneTwice(h: seq<real>, earlier: real, later: real)
    requires earlier <= later
    ensures Recent(Recent(h, earlier), later) == Recent(h, later)
  {
    if h != [] {
      var t := h[|h| - 1];
      PruneTwice(h[..|h| - 1], earlier, later);
      if earlier - t < LOGIN_WINDOW {
        RecentAppend(Recent(h[..|h| - 1], earlier), t, later);
      }
    }
  }

  lemma {:induction false} EverythingRecent(h: seq<real>, now: real)
    requires forall i :: 0 <= i < |h| ==> now - h[i] < LOGIN_WINDOW
    ensures Recent(h, now) == h
  {
    if h != [] {
      var front, last := h[..|h| - 1], h[|h| - 1];
      EverythingRecent(front, now);
      assert front + [last] == h;
    }
  }

  // ---- The rule in numbers ----

  /** The calls before `k` that were accepted from `ip` less than a window before `now`. */
  function RecentBefore(calls: seq<Call>, k: nat, ip: string, now: real): set<nat>
    requires k <= |calls|
  {
    set i: nat | i < k && calls[i].ip == ip && AcceptedAt(calls, i) && now - calls[i].now < LOGIN_WINDOW
  }

  /** Call `k` is accepted and counts at `now` for `ip`. */
  predicate Counts(calls: seq<Call>, k: nat, ip: string, now: real)
    requires k < |calls|
  {
    calls[k].ip == ip && AcceptedAt(calls, k) && now - calls[k].now < LOGIN_WINDOW
  }

  lemma RecentGrows(calls: seq<Call>, k: nat, ip: string, now: real)
    requires k < |calls|
    ensures var before := Recent(Accepted(calls[..k], ip), now);
            |Recent(Accepted(calls[..k + 1], ip), now)| == |before| + if Counts(calls, k, ip, now) then 1 else 0
  {
    assert calls[..k + 1] == calls[..k] + [calls[k]];
    AcceptedStep(calls[..k], calls[k], ip);
    RecentAppend(Accepted(calls[..k], ip), calls[k].now, now);
  }

  lemma RecentBeforeGrows(calls: seq<Call>, k: nat, ip: string, now: real)
    requires k < |calls|
    ensures |RecentBefore(calls, k + 1, ip, now)| == |RecentBefore(calls, k, ip, now)| + if Counts(calls, k, ip, now) then 1 else 0
  {
    var before := RecentBefore(calls, k, ip, now);
    assert k !in before;
    assert RecentBefore(calls, k + 1, ip, now) == if Counts(calls, k, ip, now) then before + {k} else before;
  }

  /** The pruned full history has one entry for each of these calls. */
  lemma {:induction false} RecentCounts(calls: seq<Call>, k: nat, ip: string, now: real)
    requires k <= |calls|
    ensures |Recent(Accepted(calls[..k], ip), now)| == |RecentBefore(calls, k, ip, now)|
  {
    if k == 0 {
      assert calls[..0] == [];
    } else {
      RecentCounts(calls, k - 1, ip, now);
      RecentGrows(calls, k - 1, ip, now);
      RecentBeforeGrows(calls, k - 1, ip, now);
    }
  }

  /** A login is accepted exactly if fewer than five of its address were accepted in the 60 seconds before it. */
  lemma AcceptedIffFewerThanFive(calls: seq<Call>, k: nat)
    requires k < |calls|
    ensures AcceptedAt(calls, k) <==>
            |set i: nat | i < k && calls[i].ip == calls[k].ip && AcceptedAt(calls, i) && calls[k].now - calls[i].now < 60.0| < 5
    ensures AcceptedAt(calls, k) <==> |RecentLogins(calls, k)| < 5
  {
    RecentCounts(calls, k, calls[k].ip, calls[k].now);
    assert RecentBefore(calls, k, calls[k].ip, calls[k].now)
        == set i: nat | i < k && calls[i].ip == calls[k].ip && AcceptedAt(calls, i) && calls[k].now - calls[i].now < 60.0;
    assert RecentBefore(calls, k, calls[k].ip, calls[k].now) == RecentLogins(calls, k);
  }

  // ---- The bound ----

  lemma {:induction false} LatestOf(s: set<nat>) returns (k: nat)
    requires s != {}
    ensures k in s && forall i :: i in s ==> i <= k
    decreases |s|
  {
    k :| k in s;
    var rest := s - {k};
    assert s == rest + {k};
    if rest != {} {
      var l := LatestOf(rest);
      k := if l > k then l else k;
    }
  }

  /** In every run, for every address, every half-open window of 60 seconds holds at most five accepted logins. */
  lemma WindowBound(calls: seq<Call>, ip: string, w: real)
    ensures |set i: nat | i < |calls| && calls[i].ip == ip && AcceptedAt(calls, i) && w <= calls[i].now < w + 60.0| <= 5
  {
    var s := set i: nat | i < |calls| && calls[i].ip == ip && AcceptedAt(calls, i) && w <= calls[i].now < w + 60.0;
    if s != {} {
      var k := LatestOf(s);
      assert s <= RecentLogins(calls, k) + {k};
      SubsetIsSmaller(s, RecentLogins(calls, k) + {k});
      AcceptedIffFewerThanFive(calls, k);
    }
  }

  /** Between an accepted login and the fifth accepted one after it lie at least 60 seconds. */
  lemma FiveApart(calls: seq<Call>, i: nat, k: nat)
    requires InOrder(calls) && i < k < |calls| && calls[i].ip == calls[k].ip && AcceptedAt(calls, i) && AcceptedAt(calls, k)
    requires |set m: nat | i < m < k && calls[m].ip == calls[i].ip && AcceptedAt(calls, m)| >= 4
    ensures calls[k].now - calls[i].now >= 60.0
  {
    var between := set m: nat | i < m < k && calls[m].ip == calls[i].ip && AcceptedAt(calls, m);
    AcceptedIffFewerThanFive(calls, k);
    if calls[k].now - calls[i].now < 60.0 {
      assert between + {i} <= RecentLogins(calls, k);
      SubsetIsSmaller(between + {i}, RecentLogins(calls, k));
      assert false;
    }
  }

  // ---- What a decision does not depend on ----

  /** A refused call, and a call from another address, leave every later decision about `ip` as it was. */
  lemma {:induction false} RefusedAndForeignCallsAreInvisible(before: seq<Call>, c: Call, after: seq<Call>, ip: string)
    requires c.ip != ip || !IsAllowed(Accepted(before, c.ip), c.now)
    ensures Accepted(before + [c] + after, ip) == Accepted(before + after, ip)
    decreases |after|
  {
    if after == [] {
      assert (before + [c] + after)[..|before|] == before;
      assert before + after == before;
    } else {
      var front := after[..|after| - 1];
      RefusedAndForeignCallsAreInvisible(before, c, front, ip);
      assert (before + [c] + after)[..|before + [c] + after| - 1] == before + [c] + front;
      assert (before + after)[..|before + after| - 1] == before + front;
    }
  }

  /** Retry-After tells the truth: a client refused at call `i` that comes back at least 60 seconds later, with no login
      of its address accepted in between, is let in. */
  lemma RetryAfterIsTruthful(calls: seq<Call>, i: nat, k: nat)
    requires InOrder(calls) && i < k < |calls| && calls[i].ip == calls[k].ip
    requires forall m :: i <= m < k && calls[m].ip == calls[k].ip ==> !AcceptedAt(calls, m)
    requires calls[k].now >= calls[i].now + 60.0
    ensures AcceptedAt(calls, k)
  {
    AcceptedIffFewerThanFive(calls, k);
    assert RecentLogins(calls, k) == {};
  }

  /** And it is not an overstatement: a client can be refused any time short of those 60 seconds. Five logins at one
      moment `t` are accepted, and every call of that address from then until t + 60 is refused. */
  lemma RefusedForTheWholeWindow(t: real, now: real, ip: string)
    requires t <= now < t + 60.0
    ensures var c := Call(ip, t);
            var calls := [c, c, c, c, c, Call(ip, now)];
            (forall k :: 0 <= k < 5 ==> AcceptedAt(calls, k)) && !AcceptedAt(calls, 5)
  {
    var c := Call(ip, t);
    var calls := [c, c, c, c, c, Call(ip, now)];
    forall k | 0 <= k < 5
      ensures AcceptedAt(calls, k)
    {
      FirstFive(calls, c, k);
      assert calls[k] == c;
    }
    FirstFive(calls, c, 5);
    EverythingRecent(Repeat(t, 5), now);
  }

  function Repeat(t: real, n: nat): (h: seq<real>)
    ensures |h| == n && forall i :: 0 <= i < n ==> h[i] == t
  {
    if n == 0 then [] else Repeat(t, n - 1) + [t]
  }

  lemma {:induction false} FirstFive(calls: seq<Call>, c: Call, n: nat)
    requires n <= 5 && n <= |calls| && forall k :: 0 <= k < n ==> calls[k] == c
    ensures Accepted(calls[..n], c.ip) == Repeat(c.now, n)
    ensures n < 5 ==> IsAllowed(Repeat(c.now, n), c.now)
  {
    EverythingRecent(Repeat(c.now, n), c.now);
    if n > 0 {
      FirstFive(calls, c, n - 1);
      assert calls[..n][..n - 1] == calls[..n - 1];
    }
  }
}
