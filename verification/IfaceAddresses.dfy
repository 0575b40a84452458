/** Which interface a local address belongs to: `_parse_iface_ips` of app/api/system.py. The rule it implements is
    longest match, section 5.1 of RFC 4632. */
module IfaceAddresses {
  import opened Wrappers
  import opened Words
  import opened RouteText

  // ---- Step 1: the local addresses ----

  /** Line `i` is a leaf whose very next line is no leaf and says LOCAL. */
  predicate IsLocalLeaf(lines: seq<string>, i: nat)
    requires i < |lines|
  {
    LeafAddress(lines[i]).Some? && i + 1 < |lines| && LeafAddress(lines[i + 1]).None? && SaysLocal(lines[i + 1])
  }

  function LocalAddresses(lines: seq<string>): set<string> {
    set i | 0 <= i < |lines| && IsLocalLeaf(lines, i) :: LeafAddress(lines[i]).value
  }

  /** The scanner with its one-line memory collects exactly the local addresses. */
  method ScanTrie(lines: seq<string>) returns (found: set<string>)
    ensures found == LocalAddresses(lines)
  {
    found := {};
    var prev: Option<string> := None;
    for n := 0 to |lines|
      invariant prev == if n == 0 then None else LeafAddress(lines[n - 1])
      invariant found == set i | 0 <= i < n - 1 && IsLocalLeaf(lines, i) :: LeafAddress(lines[i]).value
    {
      var m := LeafAddress(lines[n]);
      ghost var before := found;
      if m.Some? {
        prev := m;
      } else {
        if prev.Some? && SaysLocal(lines[n]) {
          found := found + {prev.value};
        }
        prev := None;
      }
      OneMoreLine(lines, n, before, found);
    }
  }

  lemma OneMoreLine(lines: seq<string>, n: nat, before: set<string>, after: set<string>)
    requires n < |lines|
    requires before == set i | 0 <= i < n - 1 && IsLocalLeaf(lines, i) :: LeafAddress(lines[i]).value
    requires after == before + if n > 0 && IsLocalLeaf(lines, n - 1) then {LeafAddress(lines[n - 1]).value} else {}
    ensures after == set i | 0 <= i < n && IsLocalLeaf(lines, i) :: LeafAddress(lines[i]).value
  {
  }

  // ---- Step 2: the routes, most specific first ----

  /** Reading the route table line by line, skipping its header and what is malformed or down. */
  method ReadRoutes(lines: seq<string>) returns (routes: seq<Route>)
    ensures routes == RouteTable(lines)
  {
    routes := [];
    for n := 1 to if |lines| == 0 then 1 else |lines|
      invariant |lines| > 0 ==> routes == RouteTable(lines[..n])
      invariant |lines| == 0 ==> routes == []
    {
      var r := RouteOf(lines[n]);
      assert lines[..n + 1][..n] == lines[..n];
      if r.Some? {
        routes := routes + [r.value];
      }
    }
    assert lines[..|lines|] == lines;
  }

  function Key(r: Route): nat {
    Popcount(r.mask)
  }

  /** `p` lists the indices of `rs`, each once, in the order of a stable sort by descending mask length: where the
      lengths are equal, the earlier line first. */
  predicate IsStableOrder(rs: seq<Route>, p: seq<nat>) {
    && |p| == |rs|
    && (forall i :: 0 <= i < |p| ==> p[i] < |rs|)
    && (forall k: nat :: k < |rs| ==> k in p)
    && forall i, j :: 0 <= i < j < |p| ==> Precedes(rs, p[i], p[j])
  }

  predicate Precedes(rs: seq<Route>, a: nat, b: nat) {
    a < |rs| && b < |rs| && (Key(rs[a]) > Key(rs[b]) || (Key(rs[a]) == Key(rs[b]) && a < b))
  }

  /** Put index `k`, the largest so far, behind everything that is at least as specific. */
  function Insert(rs: seq<Route>, p: seq<nat>, k: nat): (q: seq<nat>)
    requires k < |rs| && forall i :: 0 <= i < |p| ==> p[i] < |rs|
    ensures |q| == |p| + 1 && forall x :: x in q <==> x in p || x == k
  {
    if p == [] || Key(rs[p[|p| - 1]]) >= Key(rs[k]) then p + [k]
    else
      assert p == p[..|p| - 1] + [p[|p| - 1]];
      Insert(rs, p[..|p| - 1], k) + [p[|p| - 1]]
  }

  /** The stable order of the first `n` routes. */
  function SortedIndices(rs: seq<Route>, n: nat): (p: seq<nat>)
    requires n <= |rs|
    ensures |p| == n
    ensures forall x: nat :: x < n ==> x in p
    ensures forall x :: x in p ==> x < n
  {
    if n == 0 then [] else
      var q := SortedIndices(rs, n - 1);
      assert forall i :: 0 <= i < |q| ==> q[i] in q;
      Insert(rs, q, n - 1)
  }

  predicate InOrder(rs: seq<Route>, p: seq<nat>) {
    forall i, j :: 0 <= i < j < |p| ==> Precedes(rs, p[i], p[j])
  }

  lemma {:induction false} InsertKeepsOrder(rs: seq<Route>, p: seq<nat>, k: nat)
    requires k < |rs| && (forall i :: 0 <= i < |p| ==> p[i] < k) && InOrder(rs, p)
    ensures InOrder(rs, Insert(rs, p, k))
  {
    var q := Insert(rs, p, k);
    if p == [] || Key(rs[p[|p| - 1]]) >= Key(rs[k]) {
      forall i | 0 <= i < |p| ensures Precedes(rs, p[i], k) {
        if i < |p| - 1 { assert Precedes(rs, p[i], p[|p| - 1]); }
      }
    } else {
      var front, last := p[..|p| - 1], p[|p| - 1];
      InsertKeepsOrder(rs, front, k);
      var f := Insert(rs, front, k);
      assert q == f + [last];
      forall i | 0 <= i < |f| ensures Precedes(rs, f[i], last) {
        assert f[i] in f;
        if f[i] != k {
          var m :| 0 <= m < |front| && front[m] == f[i];
          assert Precedes(rs, p[m], p[|p| - 1]);
        }
      }
    }
  }

  /** The insertion sort above is a stable sort, so every table has a stable order. */
  lemma {:induction false} SortedIndicesOrdered(rs: seq<Route>, n: nat)
    requires n <= |rs|
    ensures InOrder(rs, SortedIndices(rs, n))
  {
    if n > 0 {
      SortedIndicesOrdered(rs, n - 1);
      var q := SortedIndices(rs, n - 1);
      forall i | 0 <= i < |q|
        ensures q[i] < n - 1
      {
        assert q[i] in q;
      }
      InsertKeepsOrder(rs, q, n - 1);
    }
  }

  function Rearranged(rs: seq<Route>, p: seq<nat>): seq<Route>
    requires forall i :: 0 <= i < |p| ==> p[i] < |rs|
  {
    seq(|p|, i requires 0 <= i < |p| => rs[p[i]])
  }

  /** `sorted` holds the routes of `rs`, each once, the longest masks first and equally long ones in table order. */
  ghost predicate IsStableSort(rs: seq<Route>, sorted: seq<Route>) {
    exists p :: IsStableOrder(rs, p) && sorted == Rearranged(rs, p)
  }

  /** `iface_nets.sort(key=..., reverse=True)`. */
  method SortRoutes(rs: seq<Route>) returns (sorted: seq<Route>)
    ensures IsStableSort(rs, sorted)
  {
    var p := SortedIndices(rs, |rs|);
    SortedIndicesOrdered(rs, |rs|);
    assert forall i :: 0 <= i < |p| ==> p[i] in p;
    assert IsStableOrder(rs, p);
    sorted := Rearranged(rs, p);
  }

  // ---- Step 3: the first hit ----

  predicate Matches(r: Route, address: nat) {
    InSubnet(address, r.net, r.mask)
  }

  /** The first matching route of the sorted table: the inner loop with its break. */
  method FirstHit(sorted: seq<Route>, address: nat) returns (hit: Option<nat>)
    ensures hit.None? ==> forall i :: 0 <= i < |sorted| ==> !Matches(sorted[i], address)
    ensures hit.Some? ==> hit.value < |sorted| && Matches(sorted[hit.value], address)
    ensures hit.Some? ==> forall i :: 0 <= i < hit.value ==> !Matches(sorted[i], address)
  {
    for i := 0 to |sorted|
      invariant forall k :: 0 <= k < i ==> !Matches(sorted[k], address)
    {
      if Matches(sorted[i], address) {
        return Some(i);
      }
    }
    return None;
  }

  /** Route `k` of the table as printed is the longest match of the address: it contains the address, no matching route
      has a longer mask, and among equally long ones it is the first line. */
  predicate IsLongestMatch(rs: seq<Route>, address: nat, k: nat) {
    && k < |rs| && Matches(rs[k], address)
    && forall q :: 0 <= q < |rs| && Matches(rs[q], address) && q != k ==> Precedes(rs, k, q)
  }

  /** After any stable sort by mask length, the first hit is the longest match. */
  lemma FirstHitIsLongestMatch(rs: seq<Route>, p: seq<nat>, address: nat, i: nat)
    requires IsStableOrder(rs, p) && i < |p| && Matches(rs[p[i]], address)
    requires forall j :: 0 <= j < i ==> !Matches(rs[p[j]], address)
    ensures IsLongestMatch(rs, address, p[i])
  {
    forall q | 0 <= q < |rs| && Matches(rs[q], address) && q != p[i]
      ensures Precedes(rs, p[i], q)
    {
      assert q in p;
      var j :| 0 <= j < |p| && p[j] == q;
      assert j > i;
    }
  }

  /** There is at most one longest match. */
  lemma LongestMatchIsUnique(rs: seq<Route>, address: nat, k: nat, l: nat)
    requires IsLongestMatch(rs, address, k) && IsLongestMatch(rs, address, l)
    ensures k == l
  {
    assert k == l || (Precedes(rs, k, l) && Precedes(rs, l, k));
  }

  /** Where all masks are contiguous, the subnet of the longest match lies inside every other subnet that contains the
      address. */
  lemma LongestMatchIsInnermost(rs: seq<Route>, address: nat, k: nat, q: nat, x: nat)
    requires IsLongestMatch(rs, address, k) && q < |rs| && Matches(rs[q], address)
    requires IsMask(rs[k].mask, WORD_BITS) && IsMask(rs[q].mask, WORD_BITS)
    requires Matches(rs[k], x)
    ensures Matches(rs[q], x)
  {
    if q != k {
      assert Precedes(rs, k, q);
      LongerMaskIsInside(address, rs[k].net, rs[k].mask, rs[q].net, rs[q].mask, x);
    }
  }

  // ---- The assignment ----

  /** The address text is eligible, and its longest match is a route of the interface. */
  predicate BelongsTo(rs: seq<Route>, ip: string, iface: string) {
    !IsSkipped(ip) && Aton(ip).Some? &&
    exists k :: 0 <= k < |rs| && IsLongestMatch(rs, Aton(ip).value, k) && rs[k].iface == iface
  }

  /** The interface of one address, by the sorted table. */
  method HomeOf(rs: seq<Route>, sorted: seq<Route>, ip: string) returns (home: Option<string>)
    requires IsStableSort(rs, sorted)
    ensures home.Some? ==> BelongsTo(rs, ip, home.value)
    ensures forall f :: BelongsTo(rs, ip, f) ==> home == Some(f)
  {
    if IsSkipped(ip) {
      return None;
    }
    var address := Aton(ip);
    if address.None? {
      return None;
    }
    var hit := FirstHit(sorted, address.value);
    ghost var p :| IsStableOrder(rs, p) && sorted == Rearranged(rs, p);
    assert forall i :: 0 <= i < |p| ==> sorted[i] == rs[p[i]];
    if hit.None? {
      forall k | 0 <= k < |rs|
        ensures !Matches(rs[k], address.value)
      {
        assert k in p;
        var j :| 0 <= j < |p| && p[j] == k;
        assert !Matches(sorted[j], address.value);
      }
      return None;
    }
    FirstHitIsLongestMatch(rs, p, address.value, hit.value);
    forall f | BelongsTo(rs, ip, f)
      ensures f == sorted[hit.value].iface
    {
      var k :| 0 <= k < |rs| && IsLongestMatch(rs, address.value, k) && rs[k].iface == f;
      LongestMatchIsUnique(rs, address.value, k, p[hit.value]);
    }
    return Some(sorted[hit.value].iface);
  }

  /** The result lists, interface by interface, exactly the addresses of `ips` that belong there, each once. */
  predicate IsAssignment(rs: seq<Route>, ips: set<string>, m: map<string, seq<string>>) {
    && (forall f :: f in m ==> m[f] != [] && NoRepeats(m[f]))
    && (forall f, ip :: f in m && ip in m[f] ==> ip in ips && BelongsTo(rs, ip, f))
    && (forall ip, k :: ip in ips && 0 <= k < |rs| && BelongsTo(rs, ip, rs[k].iface) ==> rs[k].iface in m && ip in m[rs[k].iface])
  }

  /** The outer loop. A Python set is visited in some unknown order; so is this one. */
  method Assign(rs: seq<Route>, sorted: seq<Route>, ips: set<string>) returns (m: map<string, seq<string>>)
    requires IsStableSort(rs, sorted)
    ensures IsAssignment(rs, ips, m)
  {
    m := map[];
    var rest := ips;
    while rest != {}
      invariant rest <= ips && IsAssignment(rs, ips - rest, m)
      decreases |rest|
    {
      var ip :| ip in rest;
      var home := HomeOf(rs, sorted, ip);
      ghost var seen, before := ips - rest, m;
      if home.Some? {
        var f := home.value;
        m := m[f := (if f in m then m[f] else []) + [ip]];
      }
      OneMoreAddress(rs, seen, ip, home, before, m);
      rest := rest - {ip};
      assert ips - rest == seen + {ip};
    }
    assert ips - rest == ips;
  }

  lemma OneMoreAddress(rs: seq<Route>, seen: set<string>, ip: string, home: Option<string>,
                       before: map<string, seq<string>>, after: map<string, seq<string>>)
    requires IsAssignment(rs, seen, before) && ip !in seen
    requires home.Some? ==> BelongsTo(rs, ip, home.value)
    requires forall f :: BelongsTo(rs, ip, f) ==> home == Some(f)
    requires after == if home.None? then before
                      else before[home.value := (if home.value in before then before[home.value] else []) + [ip]]
    ensures IsAssignment(rs, seen + {ip}, after)
  {
    if home.Some? {
      var f := home.value;
      var listed := if f in before then before[f] else [];
      assert forall x :: x in after[f] <==> x in listed || x == ip;
      assert forall i :: 0 <= i < |listed| ==> listed[i] in listed;
    }
  }

  /** The number of times an address is listed under an interface. */
  function Listed(m: map<string, seq<string>>, f: string, ip: string): nat {
    if f in m then multiset(m[f])[ip] else 0
  }

  lemma {:induction false} CountOnce(l: seq<string>, x: string)
    requires NoRepeats(l)
    ensures multiset(l)[x] == if x in l then 1 else 0
  {
    if l != [] {
      var front := l[..|l| - 1];
      assert l == front + [l[|l| - 1]];
      CountOnce(front, x);
      assert l[|l| - 1] !in front;
    }
  }

  /** Partition: an address is listed once under its interface and nowhere else; one that is not local, is skipped, or
      matches no route that is up, is listed nowhere. */
  lemma ListedOnceOrNowhere(rs: seq<Route>, ips: set<string>, m: map<string, seq<string>>, ip: string, f: string)
    requires IsAssignment(rs, ips, m)
    ensures Listed(m, f, ip) == if ip in ips && BelongsTo(rs, ip, f) then 1 else 0
    ensures forall g :: BelongsTo(rs, ip, f) && BelongsTo(rs, ip, g) ==> f == g
  {
    if f in m {
      CountOnce(m[f], ip);
    }
    forall g | BelongsTo(rs, ip, f) && BelongsTo(rs, ip, g)
      ensures f == g
    {
      var k :| 0 <= k < |rs| && IsLongestMatch(rs, Aton(ip).value, k) && rs[k].iface == f;
      var l :| 0 <= l < |rs| && IsLongestMatch(rs, Aton(ip).value, l) && rs[l].iface == g;
      LongestMatchIsUnique(rs, Aton(ip).value, k, l);
    }
  }

  /** The order in which the set was visited shows only in the order inside the lists. */
  lemma VisitingOrderIsImmaterial(rs: seq<Route>, ips: set<string>, m: map<string, seq<string>>, l: map<string, seq<string>>)
    requires IsAssignment(rs, ips, m) && IsAssignment(rs, ips, l)
    ensures m.Keys == l.Keys
    ensures forall f :: f in m && f in l ==> multiset(m[f]) == multiset(l[f])
  {
    forall f, ip
      ensures Listed(m, f, ip) == Listed(l, f, ip)
    {
      ListedOnceOrNowhere(rs, ips, m, ip, f);
      ListedOnceOrNowhere(rs, ips, l, ip, f);
    }
    SameKeys(m, l);
    SameKeys(l, m);
    forall f | f in m && f in l
      ensures multiset(m[f]) == multiset(l[f])
    {
      forall ip
        ensures multiset(m[f])[ip] == multiset(l[f])[ip]
      {
        assert Listed(m, f, ip) == Listed(l, f, ip);
      }
    }
  }

  lemma SameKeys(m: map<string, seq<string>>, l: map<string, seq<string>>)
    requires forall f, ip :: Listed(m, f, ip) == Listed(l, f, ip)
    requires forall f :: f in m ==> m[f] != []
    ensures m.Keys <= l.Keys
  {
    forall f | f in m
      ensures f in l
    {
      assert m[f][0] in multiset(m[f]);
      assert Listed(m, f, m[f][0]) > 0;
      assert Listed(l, f, m[f][0]) > 0;
    }
  }

  /** Which addresses are listed at all: the eligible local ones that some route matches. */
  lemma ListedIffMatched(rs: seq<Route>, ip: string)
    requires !IsSkipped(ip) && Aton(ip).Some?
    ensures (exists f :: BelongsTo(rs, ip, f)) <==> exists q :: 0 <= q < |rs| && Matches(rs[q], Aton(ip).value)
  {
    var address := Aton(ip).value;
    var p := SortedIndices(rs, |rs|);
    SortedIndicesOrdered(rs, |rs|);
    assert forall i :: 0 <= i < |p| ==> p[i] in p;
    assert IsStableOrder(rs, p);
    if q :| 0 <= q < |rs| && Matches(rs[q], address) {
      assert q in p;
      var j :| 0 <= j < |p| && p[j] == q;
      var i := 0;
      while !Matches(rs[p[i]], address)
        invariant i <= j
        invariant forall k :: 0 <= k < i ==> !Matches(rs[p[k]], address)
        decreases j - i
      {
        i := i + 1;
      }
      FirstHitIsLongestMatch(rs, p, address, i);
      assert BelongsTo(rs, ip, rs[p[i]].iface);
    }
  }

  // ---- The rule, address by address ----

  /** The route contains the address word. */
  predicate Covers(r: Route, word: nat) {
    And(word, r.mask) == And(r.net, r.mask)
  }

  /** Of the routes that contain the word, route `k` has the longest mask, and is the first line among equally long ones. */
  predicate IsChosen(rs: seq<Route>, word: nat, k: nat) {
    && k < |rs| && Covers(rs[k], word)
    && forall q :: 0 <= q < |rs| && q != k && Covers(rs[q], word) ==>
         Popcount(rs[q].mask) < Popcount(rs[k].mask) || (Popcount(rs[q].mask) == Popcount(rs[k].mask) && k < q)
  }

  /** What becomes of the address a.b.c.d: a local one that is not of the loopback network, does not end in byte 0 or 255,
      and lies in some route is listed once, under the interface of the chosen route; any other is listed nowhere. */
  ghost predicate FollowsRule(rs: seq<Route>, ips: set<string>, m: map<string, seq<string>>, a: nat, b: nat, c: nat, d: nat) {
    var ip, word := Dotted(a, b, c, d), BigEndian(a, b, c, d);
    if ip in ips && a != 127 && d != 0 && d != 255 && exists q :: 0 <= q < |rs| && Covers(rs[q], word)
    then exists k: nat :: IsChosen(rs, word, k) && IsListedOnlyUnder(m, ip, rs[k].iface)
    else forall f :: f in m ==> ip !in m[f]
  }

  /** The address is listed once under `home`, and under no other interface. */
  ghost predicate IsListedOnlyUnder(m: map<string, seq<string>>, ip: string, home: string) {
    home in m && multiset(m[home])[ip] == 1 && forall f :: f in m && f != home ==> ip !in m[f]
  }

  lemma AssignmentFollowsRule(rs: seq<Route>, ips: set<string>, m: map<string, seq<string>>, a: nat, b: nat, c: nat, d: nat)
    requires IsAssignment(rs, ips, m) && IsByte(a) && IsByte(b) && IsByte(c) && IsByte(d)
    ensures FollowsRule(rs, ips, m, a, b, c, d)
  {
    var ip, word := Dotted(a, b, c, d), BigEndian(a, b, c, d);
    SkippedIff(a, b, c, d);
    AtonOfAddress(a, b, c, d);
    if ip in ips && !IsSkipped(ip) && exists q :: 0 <= q < |rs| && Covers(rs[q], word) {
      var q :| 0 <= q < |rs| && Covers(rs[q], word);
      assert Matches(rs[q], word);
      ListedIffMatched(rs, ip);
      var f :| BelongsTo(rs, ip, f);
      var k :| 0 <= k < |rs| && IsLongestMatch(rs, word, k) && rs[k].iface == f;
      LongestIsChosen(rs, word, k);
      HomeIsUnique(rs, ips, m, ip, f);
    } else {
      forall f | f in m
        ensures ip !in m[f]
      {
        if ip in m[f] {
          ListedIsEligible(rs, ips, m, ip, f);
          assert false;
        }
      }
    }
  }

  lemma LongestIsChosen(rs: seq<Route>, word: nat, k: nat)
    requires IsLongestMatch(rs, word, k)
    ensures IsChosen(rs, word, k)
  {
    forall q | 0 <= q < |rs| && q != k && Covers(rs[q], word)
      ensures Popcount(rs[q].mask) < Popcount(rs[k].mask) || (Popcount(rs[q].mask) == Popcount(rs[k].mask) && k < q)
    {
      assert Matches(rs[q], word);
      assert Precedes(rs, k, q);
    }
  }

  lemma HomeIsUnique(rs: seq<Route>, ips: set<string>, m: map<string, seq<string>>, ip: string, home: string)
    requires IsAssignment(rs, ips, m) && ip in ips && BelongsTo(rs, ip, home)
    ensures IsListedOnlyUnder(m, ip, home)
  {
    ListedOnceOrNowhere(rs, ips, m, ip, home);
    forall f | f in m && f != home
      ensures ip !in m[f]
    {
      if ip in m[f] {
        assert BelongsTo(rs, ip, f);
        ListedOnceOrNowhere(rs, ips, m, ip, home);
      }
    }
  }

  /** An address that is listed is local, is not skipped, and lies in some route. */
  lemma ListedIsEligible(rs: seq<Route>, ips: set<string>, m: map<string, seq<string>>, ip: string, f: string)
    requires IsAssignment(rs, ips, m) && f in m && ip in m[f]
    ensures ip in ips && !IsSkipped(ip) && Aton(ip).Some? && exists q :: 0 <= q < |rs| && Covers(rs[q], Aton(ip).value)
  {
    assert BelongsTo(rs, ip, f);
    var k :| 0 <= k < |rs| && IsLongestMatch(rs, Aton(ip).value, k) && rs[k].iface == f;
    assert Covers(rs[k], Aton(ip).value);
  }

  /** `_parse_iface_ips`, from the two tables as lines. */
  method ParseIfaceIps(trie: seq<string>, route: seq<string>) returns (m: map<string, seq<string>>)
    ensures IsAssignment(RouteTable(route), LocalAddresses(trie), m)
    ensures forall a, b, c, d :: IsByte(a) && IsByte(b) && IsByte(c) && IsByte(d) ==>
              FollowsRule(RouteTable(route), LocalAddresses(trie), m, a, b, c, d)
  {
    var ips := ScanTrie(trie);
    var rs := ReadRoutes(route);
    var sorted := SortRoutes(rs);
    m := Assign(rs, sorted, ips);
    forall a, b, c, d | IsByte(a) && IsByte(b) && IsByte(c) && IsByte(d)
      ensures FollowsRule(rs, ips, m, a, b, c, d)
    {
      AssignmentFollowsRule(rs, ips, m, a, b, c, d);
    }
  }
}
