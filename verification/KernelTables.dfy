/** The kernel's tables as it prints them, and that app/api/system.py reads back what was printed. */
module KernelTables {
  import opened Wrappers
  import opened PythonText
  import opened Words
  import opened RouteText
  import opened IfaceAddresses

  /** An IPv4 address or mask, byte by byte. */
  datatype Quad = Quad(a: nat, b: nat, c: nat, d: nat)
  {
    predicate Valid() {
      IsByte(a) && IsByte(b) && IsByte(c) && IsByte(d)
    }

    function Value(): nat {
      BigEndian(a, b, c, d)
    }
  }

  // ---- fib_trie ----

  function Spaces(n: nat): (s: string)
    ensures |s| == n && forall i :: 0 <= i < n ==> s[i] == ' '
  {
    if n == 0 then "" else " " + Spaces(n - 1)
  }

  /** A leaf of the trie, indented by its depth. */
  function LeafLine(depth: nat, q: Quad): string {
    Spaces(depth) + "|-- " + Dotted(q.a, q.b, q.c, q.d)
  }

  lemma {:induction false} SpacesSkipped(s: string, i: nat, k: nat)
    requires i <= k <= |s| && forall j :: i <= j < k ==> IsTextSpace(s[j])
    requires k < |s| ==> !IsTextSpace(s[k])
    ensures AfterSpaces(s, i) == k
    decreases k - i
  {
    if i < k {
      SpacesSkipped(s, i + 1, k);
    }
  }

  lemma {:induction false} DigitsSkipped(s: string, i: nat, k: nat)
    requires i <= k <= |s| && forall j :: i <= j < k ==> IsDigit(s[j])
    requires k < |s| ==> !IsDigit(s[k])
    ensures AfterDigits(s, i) == k
    decreases k - i
  {
    if i < k {
      DigitsSkipped(s, i + 1, k);
    }
  }

  lemma {:induction false} NumeralIsDigits(n: nat)
    ensures forall c :: c in Numeral(n) ==> IsDigit(c)
  {
    if n >= 10 {
      NumeralIsDigits(n / 10);
    }
  }

  /** One group of an address, with what comes before it and after it. */
  lemma GroupSkipped(before: string, n: nat, after: string)
    requires after != "" ==> !IsDigit(after[0])
    ensures AfterDigits(before + Numeral(n) + after, |before|) == |before| + |Numeral(n)|
  {
    NumeralIsDigits(n);
    var s, k := before + Numeral(n) + after, |before| + |Numeral(n)|;
    forall j | |before| <= j < k
      ensures IsDigit(s[j])
    {
      assert s[j] == Numeral(n)[j - |before|] && s[j] in Numeral(n);
    }
    DigitsSkipped(s, |before|, k);
  }

  /** Numerals with dots between them. */
  function DotJoined(ns: seq<nat>): string {
    if ns == [] then "" else if |ns| == 1 then Numeral(ns[0]) else Numeral(ns[0]) + "." + DotJoined(ns[1..])
  }

  /** A group that is not the last one, and the dot behind it. */
  lemma GroupAndDot(before: string, n: nat, after: string, m: nat)
    requires m > 1
    ensures var s := before + Numeral(n) + "." + after;
            AfterGroups(s, |before|, m) == AfterGroups(s, |before + Numeral(n) + "."|, m - 1)
  {
    var s := before + Numeral(n) + "." + after;
    assert s == before + Numeral(n) + ("." + after);
    GroupSkipped(before, n, "." + after);
    assert s[|before| + |Numeral(n)|] == '.';
  }

  lemma LastGroup(before: string, n: nat)
    ensures AfterGroups(before + Numeral(n), |before|, 1) == Some(|before + Numeral(n)|)
  {
    GroupSkipped(before, n, "");
    assert before + Numeral(n) == before + Numeral(n) + "";
  }

  lemma Regroup(before: string, group: string, rest: string)
    ensures before + (group + "." + rest) == before + group + "." + rest
  {
  }

  lemma DotJoinedStep(before: string, ns: seq<nat>)
    requires |ns| > 1
    ensures before + DotJoined(ns) == before + Numeral(ns[0]) + "." + DotJoined(ns[1..])
  {
    Regroup(before, Numeral(ns[0]), DotJoined(ns[1..]));
  }

  lemma {:induction false} GroupsSkipped(before: string, ns: seq<nat>)
    requires ns != []
    ensures AfterGroups(before + DotJoined(ns), |before|, |ns|) == Some(|before + DotJoined(ns)|)
    decreases |ns|
  {
    if |ns| == 1 {
      LastGroup(before, ns[0]);
    } else {
      DotJoinedStep(before, ns);
      GroupAndDot(before, ns[0], DotJoined(ns[1..]), |ns|);
      GroupsSkipped(before + Numeral(ns[0]) + ".", ns[1..]);
    }
  }

  lemma DottedIsJoined(q: Quad)
    ensures Dotted(q.a, q.b, q.c, q.d) == DotJoined([q.a, q.b, q.c, q.d])
  {
    assert DotJoined([q.c, q.d]) == Numeral(q.c) + "." + Numeral(q.d);
    assert [q.b, q.c, q.d][1..] == [q.c, q.d] && [q.a, q.b, q.c, q.d][1..] == [q.b, q.c, q.d];
  }

  /** The scanner's pattern reads back the address of every leaf, at whatever depth it stands. */
  lemma LeafReadsBack(depth: nat, q: Quad)
    requires depth > 0
    ensures LeafAddress(LeafLine(depth, q)) == Some(Dotted(q.a, q.b, q.c, q.d))
  {
    var line, text := LeafLine(depth, q), Dotted(q.a, q.b, q.c, q.d);
    var head := Spaces(depth) + "|-- ";
    assert line == head + text && line[depth] == '|' && line[depth + 3] == ' ';
    assert line[depth..depth + 3] == "|--";
    SpacesSkipped(line, 0, depth);
    NumeralIsDigits(q.a);
    assert Numeral(q.a)[0] in Numeral(q.a) && line[depth + 4] == Numeral(q.a)[0];
    SpacesSkipped(line, depth + 3, depth + 4);
    DottedIsJoined(q);
    GroupsSkipped(head, [q.a, q.b, q.c, q.d]);
    assert line[depth + 4..|line|] == text;
  }

  /** The line under a leaf that says it is one of the machine's own addresses. */
  function LocalLine(depth: nat): string {
    Spaces(depth) + "/32 host LOCAL"
  }

  lemma LocalLineReads(depth: nat)
    ensures SaysLocal(LocalLine(depth)) && LeafAddress(LocalLine(depth)) == None
  {
    var line := LocalLine(depth);
    assert line[depth..depth + |"/32 host LOCAL"|] == "/32 host LOCAL";
    assert StandsAt(line, "/32 host LOCAL", depth);
    SpacesSkipped(line, 0, depth);
    assert line[depth] == '/' && |line| == depth + 14;
    assert line[depth..depth + 3][0] == '/';
  }

  /** Every local address the kernel prints is found, wherever in the trie it stands. */
  lemma PrintedLocalIsFound(lines: seq<string>, i: nat, depth: nat, q: Quad, under: nat)
    requires i + 1 < |lines| && depth > 0
    requires lines[i] == LeafLine(depth, q) && lines[i + 1] == LocalLine(under)
    ensures Dotted(q.a, q.b, q.c, q.d) in LocalAddresses(lines)
  {
    LeafReadsBack(depth, q);
    LocalLineReads(under);
    assert IsLocalLeaf(lines, i);
  }

  /** And what is found stands on a line with the next one saying LOCAL. */
  lemma FoundIsLocal(lines: seq<string>, ip: string) returns (i: nat, at: nat)
    requires ip in LocalAddresses(lines)
    ensures i + 1 < |lines| && LeafAddress(lines[i]) == Some(ip) && LeafAddress(lines[i + 1]) == None
    ensures at + 14 <= |lines[i + 1]| && lines[i + 1][at..at + 14] == "/32 host LOCAL"
  {
    i :| 0 <= i < |lines| && IsLocalLeaf(lines, i) && LeafAddress(lines[i]).value == ip;
    var part := "/32 host LOCAL";
    at :| 0 <= at <= |lines[i + 1]| - |part| && StandsAt(lines[i + 1], part, at);
  }

  /** A line is taken for a leaf only if it begins with white space, |-- and white space again, and what is taken for the
      address are the digits and dots that follow there. */
  lemma LeafShape(line: string, ip: string) returns (i: nat, k: nat)
    requires LeafAddress(line) == Some(ip)
    ensures 0 < i && i + 3 < k && k + |ip| <= |line| && line[k..k + |ip|] == ip
    ensures line[i] == '|' && line[i + 1] == '-' && line[i + 2] == '-'
    ensures forall j :: 0 <= j < k && !(i <= j < i + 3) ==> IsTextSpace(line[j])
    ensures forall c :: c in ip ==> IsDigit(c) || c == '.'
  {
    LeafParts(line);
    i := AfterSpaces(line, 0);
    k := AfterSpaces(line, i + 3);
    BarsAt(line, i);
    SpacesBefore(line, 0);
    SpacesBefore(line, i + 3);
    GroupsBefore(line, k, 4);
    SliceSays(line, k, AfterGroups(line, k, 4).value);
  }

  lemma LeafParts(line: string)
    requires LeafAddress(line).Some?
    ensures var i := AfterSpaces(line, 0);
            && 0 < i && i + 3 <= |line| && line[i..i + 3] == "|--"
            && var k := AfterSpaces(line, i + 3);
               && i + 3 < k && AfterGroups(line, k, 4).Some?
               && LeafAddress(line).value == line[k..AfterGroups(line, k, 4).value]
  {
  }

  lemma SliceSays(s: string, lo: nat, hi: nat)
    requires lo <= hi <= |s| && forall j :: lo <= j < hi ==> IsDigit(s[j]) || s[j] == '.'
    ensures forall c :: c in s[lo..hi] ==> IsDigit(c) || c == '.'
  {
  }

  lemma BarsAt(line: string, i: nat)
    requires i + 3 <= |line| && line[i..i + 3] == "|--"
    ensures line[i] == '|' && line[i + 1] == '-' && line[i + 2] == '-'
  {
    var bars := line[i..i + 3];
    assert bars[0] == '|' && bars[1] == '-' && bars[2] == '-';
  }

  lemma {:induction false} SpacesBefore(s: string, i: nat)
    requires i <= |s|
    ensures forall j :: i <= j < AfterSpaces(s, i) ==> IsTextSpace(s[j])
    decreases |s| - i
  {
    if i < |s| && IsTextSpace(s[i]) {
      SpacesBefore(s, i + 1);
    }
  }

  lemma {:induction false} DigitsBefore(s: string, i: nat)
    requires i <= |s|
    ensures forall j :: i <= j < AfterDigits(s, i) ==> IsDigit(s[j])
    decreases |s| - i
  {
    if i < |s| && IsDigit(s[i]) {
      DigitsBefore(s, i + 1);
    }
  }

  lemma {:induction false} GroupsBefore(s: string, i: nat, n: nat)
    requires i <= |s| && AfterGroups(s, i, n).Some?
    ensures forall j :: i <= j < AfterGroups(s, i, n).value ==> IsDigit(s[j]) || s[j] == '.'
    decreases n
  {
    if n > 0 {
      DigitsBefore(s, i);
      if n > 1 {
        GroupsBefore(s, AfterDigits(s, i) + 1, n - 1);
      }
    }
  }

  // ---- route ----

  predicate IsWord(s: string) {
    s != "" && forall i :: 0 <= i < |s| ==> !IsTextSpace(s[i])
  }

  /** Words with a tab behind each. */
  function Tabbed(words: seq<string>): string {
    if words == [] then "" else words[0] + ("\t" + Tabbed(words[1..]))
  }

  lemma {:induction false} WordLengthOf(w: string, rest: string)
    requires (forall i :: 0 <= i < |w| ==> !IsTextSpace(w[i])) && rest != "" && IsTextSpace(rest[0])
    ensures WordLength(w + rest) == |w|
  {
    if w == "" {
      assert w + rest == rest;
    } else {
      assert (w + rest)[1..] == w[1..] + rest;
      WordLengthOf(w[1..], rest);
    }
  }

  /** Splitting a line undoes its printing. */
  lemma {:induction false} FieldsOfTabbed(words: seq<string>)
    requires forall w :: w in words ==> IsWord(w)
    ensures Fields(Tabbed(words)) == words
  {
    if words != [] {
      var w, rest := words[0], Tabbed(words[1..]);
      assert w in words && forall x :: x in words[1..] ==> x in words;
      FieldsOfTabbed(words[1..]);
      WordLengthOf(w, "\t" + rest);
      var line := w + ("\t" + rest);
      assert line[..|w|] == w && line[|w|..] == "\t" + rest && ("\t" + rest)[1..] == rest;
    }
  }

  /** A line of the route table; `others` are the columns the parser skips. */
  function RouteLine(iface: string, dest: Quad, gateway: string, flags: nat, others: seq<string>,
                     mask: Quad, more: seq<string>): string
    requires |others| == 3
  {
    Tabbed([iface, KernelHex(dest.a, dest.b, dest.c, dest.d), gateway, Hex(flags, 4)] + others
           + [KernelHex(mask.a, mask.b, mask.c, mask.d)] + more)
  }

  lemma {:induction false} HexIsWord(n: nat, width: nat)
    ensures forall i :: 0 <= i < width ==> !IsTextSpace(Hex(n, width)[i])
  {
    if width > 0 {
      HexIsWord(n / 16, width - 1);
    }
  }

  lemma HexLimit4()
    ensures HexLimit(4) == 65536
  {
    assert HexLimit(2) == 256;
  }

  /** Every line of the table reads back as the route that was printed, if the route is up, and as nothing otherwise. */
  lemma RouteReadsBack(iface: string, dest: Quad, gateway: string, flags: nat, others: seq<string>,
                       mask: Quad, more: seq<string>)
    requires IsWord(iface) && IsWord(gateway) && dest.Valid() && mask.Valid() && flags < 65536 && |others| == 3
    requires forall w :: w in others + more ==> IsWord(w)
    ensures RouteOf(RouteLine(iface, dest, gateway, flags, others, mask, more))
         == if flags % 2 == 1 then Some(Route(iface, dest.Value(), mask.Value())) else None
  {
    var destHex, maskHex := KernelHex(dest.a, dest.b, dest.c, dest.d), KernelHex(mask.a, mask.b, mask.c, mask.d);
    var words := [iface, destHex, gateway, Hex(flags, 4)] + others + [maskHex] + more;
    HexIsWord(BigEndian(dest.d, dest.c, dest.b, dest.a), 8);
    HexIsWord(BigEndian(mask.d, mask.c, mask.b, mask.a), 8);
    HexIsWord(flags, 4);
    forall w | w in words
      ensures IsWord(w)
    {
      assert w in [iface, destHex, gateway, Hex(flags, 4)] || w in others + more || w == maskHex;
    }
    FieldsOfTabbed(words);
    assert words[1] == destHex && words[3] == Hex(flags, 4) && words[7] == maskHex;
    HexLimit4();
    HexRoundTrip(flags, 4);
    RouteWordOfAddress(dest.a, dest.b, dest.c, dest.d);
    RouteWordOfAddress(mask.a, mask.b, mask.c, mask.d);
  }
}
