/** Reading the kernel's text tables: one line of /proc/net/fib_trie, one of /proc/net/route, one dotted address
    (app/api/system.py). */
module RouteText {
  import opened Wrappers
  import opened PythonText
  import opened Words

  // ---- fib_trie ----

  predicate IsDigit(c: char) {
    '0' <= c <= '9'
  }

  /** Where the run of spaces that starts at `i` ends. */
  function AfterSpaces(s: string, i: nat): (k: nat)
    requires i <= |s|
    ensures i <= k <= |s|
    decreases |s| - i
  {
    if i < |s| && IsTextSpace(s[i]) then AfterSpaces(s, i + 1) else i
  }

  function AfterDigits(s: string, i: nat): (k: nat)
    requires i <= |s|
    ensures i <= k <= |s|
    decreases |s| - i
  {
    if i < |s| && IsDigit(s[i]) then AfterDigits(s, i + 1) else i
  }

  /** Where `n` groups of digits with dots between them end, if the text has them at `i`. */
  function AfterGroups(s: string, i: nat, n: nat): (k: Option<nat>)
    requires i <= |s|
    ensures k.Some? ==> i <= k.value <= |s|
    decreases n
  {
    if n == 0 then Some(i)
    else
      var k := AfterDigits(s, i);
      if k == i then None
      else if n == 1 then Some(k)
      else if k < |s| && s[k] == '.' then AfterGroups(s, k + 1, n - 1)
      else None
  }

  /** The address of a leaf line: what the pattern \s+\|--\s+(\d+\.\d+\.\d+\.\d+) captures at the start of the line. */
  function LeafAddress(line: string): Option<string> {
    var i := AfterSpaces(line, 0);
    if i == 0 || i + 3 > |line| || line[i..i + 3] != "|--" then None
    else
      var k := AfterSpaces(line, i + 3);
      if k == i + 3 then None
      else
        var end := AfterGroups(line, k, 4);
        if end.None? then None else Some(line[k..end.value])
  }

  /** Python's `part in text`. */
  predicate Contains(text: string, part: string) {
    exists i :: 0 <= i <= |text| - |part| && StandsAt(text, part, i)
  }

  predicate StandsAt(text: string, part: string, i: nat)
    requires i + |part| <= |text|
  {
    text[i..i + |part|] == part
  }

  predicate SaysLocal(line: string) {
    Contains(line, "/32 host LOCAL")
  }

  // ---- route ----

  datatype Route = Route(iface: string, net: nat, mask: nat)

  function WordLength(s: string): (n: nat)
    ensures n <= |s|
    ensures s != "" && !IsTextSpace(s[0]) ==> n > 0
  {
    if s == "" || IsTextSpace(s[0]) then 0 else 1 + WordLength(s[1..])
  }

  /** `line.split()`. */
  function Fields(s: string): seq<string>
    decreases |s|
  {
    if s == "" then []
    else if IsTextSpace(s[0]) then Fields(s[1..])
    else [s[..WordLength(s)]] + Fields(s[WordLength(s)..])
  }

  /** `_route_hex_to_be_int`; None for the ValueError of int() and the struct.error of a word out of range. */
  function RouteWord(h: string): (r: Option<nat>)
    ensures r.Some? ==> r.value < WORD_LIMIT
  {
    var v := ParseInt(h, 16);
    if v.None? || v.value < 0 || v.value >= WORD_LIMIT then None else Some(SwapBytes(v.value))
  }

  /** The route of a line, if it is a well-formed line of a route that is up. */
  function RouteOf(line: string): Option<Route> {
    var parts := Fields(line);
    if |parts| < 8 then None
    else
      var flags := ParseInt(parts[3], 16);
      if flags.None? || flags.value % 2 == 0 then None
      else
        var net, mask := RouteWord(parts[1]), RouteWord(parts[7]);
        if net.None? || mask.None? then None else Some(Route(parts[0], net.value, mask.value))
  }

  /** The table, in the order of its lines; the first line is a header. */
  function RouteTable(lines: seq<string>): seq<Route> {
    if |lines| <= 1 then []
    else
      var r := RouteOf(lines[|lines| - 1]);
      if r.None? then RouteTable(lines[..|lines| - 1]) else RouteTable(lines[..|lines| - 1]) + [r.value]
  }

  // ---- Dotted addresses ----

  /** `text.split(".")`. */
  function Parts(s: string): seq<string>
    decreases |s|
  {
    var k := UntilDot(s);
    if k == |s| then [s] else [s[..k]] + Parts(s[k + 1..])
  }

  function UntilDot(s: string): (k: nat)
    ensures k <= |s| && (k < |s| ==> s[k] == '.')
  {
    if s == "" || s[0] == '.' then 0 else 1 + UntilDot(s[1..])
  }

  function Radix(s: string, base: nat): Option<nat> {
    if s == "" then Some(0)
    else
      var c := s[|s| - 1];
      var high := Radix(s[..|s| - 1], base);
      if high.None? || !IsDigit(c) || DigitValue(c) >= base then None else Some(high.value * base + DigitValue(c))
  }

  /** One group as inet_aton reads it: octal after a leading zero, and at most 255. */
  function GroupValue(s: string): Option<nat> {
    var v := if s == "" then None else if s[0] == '0' && |s| > 1 then Radix(s, 8) else Radix(s, 10);
    if v.None? || v.value > 255 then None else v
  }

  /** `unpack(">I", inet_aton(ip))` for a text of four groups of digits; None for its OSError. */
  function Aton(ip: string): (r: Option<nat>)
  {
    var p := Parts(ip);
    if |p| != 4 then None
    else
      var a, b, c, d := GroupValue(p[0]), GroupValue(p[1]), GroupValue(p[2]), GroupValue(p[3]);
      if a.None? || b.None? || c.None? || d.None? then None
      else Some(BigEndian(a.value, b.value, c.value, d.value))
  }

  predicate HasPrefix(s: string, p: string) {
    |s| >= |p| && s[..|p|] == p
  }

  predicate HasSuffix(s: string, p: string) {
    |s| >= |p| && s[|s| - |p|..] == p
  }

  /** Loopback, network and broadcast addresses are skipped by their text. */
  predicate IsSkipped(ip: string) {
    HasPrefix(ip, "127.") || HasSuffix(ip, ".0") || HasSuffix(ip, ".255")
  }

  // ---- The kernel's printing, and that it reads back ----

  /** How the route table of a little-endian kernel prints the address a.b.c.d: its bytes, read as one machine word,
      in eight upper-case hexadecimal digits. */
  function KernelHex(a: nat, b: nat, c: nat, d: nat): string {
    Hex(BigEndian(d, c, b, a), 8)
  }

  function Dotted(a: nat, b: nat, c: nat, d: nat): string {
    Numeral(a) + "." + (Numeral(b) + "." + (Numeral(c) + "." + Numeral(d)))
  }

  lemma HexLimit8()
    ensures HexLimit(8) == WORD_LIMIT
  {
    assert HexLimit(4) == 65536;
    assert HexLimit(8) == 65536 * HexLimit(4);
  }

  /** The route word of a.b.c.d is its big-endian value. */
  lemma RouteWordOfAddress(a: nat, b: nat, c: nat, d: nat)
    requires IsByte(a) && IsByte(b) && IsByte(c) && IsByte(d)
    ensures RouteWord(KernelHex(a, b, c, d)) == Some(BigEndian(a, b, c, d))
  {
    HexLimit8();
    SwapReverses(a, b, c, d);
    HexRoundTrip(BigEndian(d, c, b, a), 8);
  }

  predicate NoDot(s: string) {
    forall c :: c in s ==> c != '.'
  }

  lemma {:induction false} UntilDotSkips(p: string, rest: string)
    requires NoDot(p)
    ensures UntilDot(p + "." + rest) == |p| && UntilDot(p) == |p|
  {
    var s := p + "." + rest;
    if p != "" {
      assert s[0] == p[0] && p[0] in p;
      assert s[1..] == p[1..] + "." + rest;
      assert forall c :: c in p[1..] ==> c in p;
      UntilDotSkips(p[1..], rest);
    }
  }

  lemma PartsStep(p: string, rest: string)
    requires NoDot(p)
    ensures Parts(p + "." + rest) == [p] + Parts(rest) && Parts(p) == [p]
  {
    UntilDotSkips(p, rest);
    var s := p + "." + rest;
    assert s[..|p|] == p && s[|p| + 1..] == rest;
  }

  lemma {:induction false} RadixOfNumeral(n: nat)
    ensures Radix(Numeral(n), 10) == Some(n) && NoDot(Numeral(n))
    ensures n > 0 ==> Numeral(n)[0] != '0'
    ensures n == 0 ==> Numeral(n) == "0"
  {
    var s := Numeral(n);
    if n < 10 {
      assert Radix(s[..0], 10) == Some(0);
    } else {
      RadixOfNumeral(n / 10);
      assert s[..|s| - 1] == Numeral(n / 10);
      assert s[|s| - 1] == Digit(n % 10);
    }
  }

  lemma GroupOfNumeral(n: nat)
    requires IsByte(n)
    ensures GroupValue(Numeral(n)) == Some(n) && NoDot(Numeral(n))
  {
    RadixOfNumeral(n);
  }

  lemma PartsOfFour(a: string, b: string, c: string, d: string)
    requires NoDot(a) && NoDot(b) && NoDot(c) && NoDot(d)
    ensures Parts(a + "." + (b + "." + (c + "." + d))) == [a, b, c, d]
  {
    PartsStep(d, "");
    PartsStep(c, d);
    PartsStep(b, c + "." + d);
    PartsStep(a, b + "." + (c + "." + d));
  }

  /** The canonical text of a.b.c.d has the same big-endian value as its route word. */
  lemma AtonOfAddress(a: nat, b: nat, c: nat, d: nat)
    requires IsByte(a) && IsByte(b) && IsByte(c) && IsByte(d)
    ensures Aton(Dotted(a, b, c, d)) == RouteWord(KernelHex(a, b, c, d)) == Some(BigEndian(a, b, c, d))
  {
    RouteWordOfAddress(a, b, c, d);
    GroupOfNumeral(a);
    GroupOfNumeral(b);
    GroupOfNumeral(c);
    GroupOfNumeral(d);
    PartsOfFour(Numeral(a), Numeral(b), Numeral(c), Numeral(d));
  }

  // ---- Which addresses are skipped ----

  lemma FirstPart(p: string, rest: string, s: string)
    requires NoDot(p) && NoDot(s)
    ensures HasPrefix(p + "." + rest, s + ".") <==> p == s
  {
    var text := p + "." + rest;
    UntilDotSkips(p, rest);
    if HasPrefix(text, s + ".") {
      assert text == s + "." + text[|s| + 1..];
      UntilDotSkips(s, text[|s| + 1..]);
      assert p == text[..|p|] && s == text[..|s|];
    }
    if p == s {
      assert text[..|s| + 1] == s + ".";
    }
  }

  /** The only dot from position |front| on is the one there. */
  lemma NoDotAfter(front: string, p: string)
    requires NoDot(p)
    ensures var text := front + "." + p; forall j :: |front| <= j < |text| ==> (text[j] == '.' <==> j == |front|)
  {
    var text := front + "." + p;
    forall j | |front| < j < |text|
      ensures text[j] != '.'
    {
      assert text[j] == p[j - |front| - 1] && p[j - |front| - 1] in p;
    }
  }

  lemma LastPart(front: string, p: string, s: string)
    requires NoDot(p) && NoDot(s)
    ensures HasSuffix(front + "." + p, "." + s) <==> p == s
  {
    var text := front + "." + p;
    NoDotAfter(front, p);
    if HasSuffix(text, "." + s) {
      var head := text[..|text| - |s| - 1];
      assert text == head + "." + s;
      NoDotAfter(head, s);
      assert text[|head|] == '.' && text[|front|] == '.';
      assert p == text[|front| + 1..] && s == text[|head| + 1..];
    }
    if p == s {
      assert text[|front|..] == "." + s;
    }
  }

  lemma NumeralIs(n: nat, text: string, value: nat)
    requires Radix(text, 10) == Some(value) && text == Numeral(value)
    ensures Numeral(n) == text <==> n == value
  {
    RadixOfNumeral(n);
  }

  lemma SkippedNumerals()
    ensures Numeral(127) == "127" && Numeral(255) == "255" && Numeral(0) == "0"
  {
    assert Numeral(12) == "12" && Numeral(25) == "25";
  }

  /** The addresses skipped by their text are those of the loopback network, and those that end in byte 0 or 255. */
  lemma SkippedIff(a: nat, b: nat, c: nat, d: nat)
    requires IsByte(a) && IsByte(b) && IsByte(c) && IsByte(d)
    ensures IsSkipped(Dotted(a, b, c, d)) <==> a == 127 || d == 0 || d == 255
  {
    SkippedNumerals();
    RadixOfNumeral(127);
    RadixOfNumeral(255);
    RadixOfNumeral(0);
    RadixOfNumeral(a);
    RadixOfNumeral(d);
    NumeralIs(a, "127", 127);
    NumeralIs(d, "0", 0);
    NumeralIs(d, "255", 255);
    SkippedByParts(Numeral(a), Numeral(b), Numeral(c), Numeral(d));
  }

  lemma SkippedByParts(a: string, b: string, c: string, d: string)
    requires NoDot(a) && NoDot(d)
    ensures IsSkipped(a + "." + (b + "." + (c + "." + d))) <==> a == "127" || d == "0" || d == "255"
  {
    var text := a + "." + (b + "." + (c + "." + d));
    var front := a + "." + (b + "." + c);
    assert text == front + "." + d;
    assert "127" + "." == "127." && "." + "0" == ".0" && "." + "255" == ".255";
    FirstPart(a, b + "." + (c + "." + d), "127");
    LastPart(front, d, "0");
    LastPart(front, d, "255");
  }

  // ---- inet_aton beyond canonical text ----

  /** The digits of `n` in base 8. */
  function Octal(n: nat): (s: string)
    ensures s != ""
  {
    if n < 8 then [Digit(n)] else Octal(n / 8) + [Digit(n % 8)]
  }

  lemma RadixStep(high: string, d: nat, base: nat)
    requires d < base <= 10
    ensures Radix(high + [Digit(d)], base)
         == if Radix(high, base).Some? then Some(Radix(high, base).value * base + d) else None
  {
    assert (high + [Digit(d)])[..|high|] == high;
  }

  lemma OctalDigit(n: nat)
    requires n < 8
    ensures Radix([Digit(n)], 8) == Some(n) && Radix("0" + [Digit(n)], 8) == Some(n)
  {
    assert Digit(0) == '0' && Radix("", 8) == Some(0);
    RadixStep("", 0, 8);
    RadixStep("", n, 8);
    assert "" + [Digit(n)] == [Digit(n)] && "" + [Digit(0)] == "0";
    RadixStep("0", n, 8);
  }

  lemma OctalStep(high: string, h: nat, d: nat)
    requires d < 8 && Radix(high, 8) == Some(h) && Radix("0" + high, 8) == Some(h)
    ensures Radix(high + [Digit(d)], 8) == Some(8 * h + d) && Radix("0" + (high + [Digit(d)]), 8) == Some(8 * h + d)
  {
    RadixStep(high, d, 8);
    RadixStep("0" + high, d, 8);
    assert "0" + high + [Digit(d)] == "0" + (high + [Digit(d)]);
  }

  lemma {:induction false} RadixOfOctal(n: nat)
    ensures Radix(Octal(n), 8) == Some(n) && Radix("0" + Octal(n), 8) == Some(n)
  {
    if n < 8 {
      OctalDigit(n);
    } else {
      RadixOfOctal(n / 8);
      OctalStep(Octal(n / 8), n / 8, n % 8);
    }
  }

  /** A group with a leading zero is octal, and no group above 255 is an address byte. */
  lemma GroupsAsInetAtonReadsThem(n: nat)
    ensures GroupValue("0" + Octal(n)) == (if n <= 255 then Some(n) else None)
    ensures GroupValue(Numeral(n)) == if n <= 255 then Some(n) else None
  {
    RadixOfOctal(n);
    RadixOfNumeral(n);
  }
}
