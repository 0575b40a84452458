/** From the MAC address a user types to the Wake-on-LAN packet: `_validate_mac` of app/api/machines.py and
    `_build_magic_packet` of app/infra/wake_strategy.py. The packet format is that of AMD's "Magic Packet Technology"
    white paper, publication 20213. */
module MagicPacket {
  import opened Wrappers
  import opened PythonText

  type Byte = n: int | 0 <= n < 256

  predicate IsHex(c: char) {
    DigitValue(c) < 16
  }

  predicate AllHex(s: string) {
    forall c :: c in s ==> IsHex(c)
  }

  /** Five pairs of hexadecimal digits with a colon behind each, and a sixth pair. */
  predicate IsMacText(v: string) {
    |v| == 17 && forall i :: 0 <= i < 17 ==> if i % 3 == 2 then v[i] == ':' else IsHex(v[i])
  }

  /** What the pattern of `_MAC_RE` matches. Python's $ also matches before one newline at the very end. */
  predicate MatchesMacPattern(v: string) {
    IsMacText(v) || (|v| == 18 && v[17] == '\n' && IsMacText(v[..17]))
  }

  function LowerChar(c: char): char {
    if 'A' <= c <= 'Z' then (c as int - 'A' as int + 'a' as int) as char else c
  }

  function UpperChar(c: char): char {
    if 'a' <= c <= 'z' then (c as int - 'a' as int + 'A' as int) as char else c
  }

  function Lower(s: string): string {
    seq(|s|, i requires 0 <= i < |s| => LowerChar(s[i]))
  }

  function Upper(s: string): string {
    seq(|s|, i requires 0 <= i < |s| => UpperChar(s[i]))
  }

  /** `_validate_mac`. */
  function ValidateMac(v: string): Result<string, string> {
    if MatchesMacPattern(v) then Success(Lower(v)) else Failure("Invalid MAC address")
  }

  /** `mac.replace(":", "").replace("-", "")`. */
  function WithoutSeparators(s: string): string {
    if s == "" then ""
    else if s[0] == ':' || s[0] == '-' then WithoutSeparators(s[1..])
    else [s[0]] + WithoutSeparators(s[1..])
  }

  function Cleaned(mac: string): string {
    Upper(WithoutSeparators(mac))
  }

  /** `bytes.fromhex`: pairs of digits, with white space allowed around, though not inside, a pair. */
  function FromHex(s: string): Option<seq<Byte>>
    decreases |s|
  {
    if s == "" then Some([])
    else if IsSpace(s[0]) then FromHex(s[1..])
    else if |s| < 2 || !IsHex(s[0]) || !IsHex(s[1]) then None
    else
      var rest := FromHex(s[2..]);
      if rest.None? then None else Some([16 * DigitValue(s[0]) + DigitValue(s[1])] + rest.value)
  }

  function Times(block: seq<Byte>, n: nat): (r: seq<Byte>)
    ensures |r| == n * |block|
  {
    if n == 0 then [] else Times(block, n - 1) + block
  }

  /** `_build_magic_packet`; the failure is its ValueError. */
  function BuildPacket(mac: string): Result<seq<Byte>, string> {
    var clean := Cleaned(mac);
    if |clean| != 12 then Failure("Invalid MAC address")
    else
      var bytes := FromHex(clean);
      if bytes.None? then Failure("non-hexadecimal number found in fromhex() arg")
      else Success(Times([255], 6) + Times(bytes.value, 16))
  }

  function LowerDigit(v: nat): (c: char)
    requires v < 16
    ensures DigitValue(c) == v
  {
    "0123456789abcdef"[v]
  }

  /** Lower-case pairs with colons between them. */
  function ColonHex(block: seq<Byte>): string {
    if block == [] then ""
    else
      var pair := [LowerDigit(block[0] / 16), LowerDigit(block[0] % 16)];
      if |block| == 1 then pair else pair + ":" + ColonHex(block[1..])
  }

  // ---- Text lemmas ----

  lemma HexCase(c: char)
    requires IsHex(c)
    ensures DigitValue(LowerChar(c)) == DigitValue(c) == DigitValue(UpperChar(c))
    ensures LowerDigit(DigitValue(c)) == LowerChar(c)
    ensures !IsSpace(UpperChar(c)) && c != ':' && c != '-' && LowerChar(c) != ':' && LowerChar(c) != '-'
  {
  }

  /** `n` pairs of hexadecimal digits, with a colon behind each but the last. */
  predicate IsPairs(v: string, n: nat) {
    |v| == 3 * n - 1 && forall i :: 0 <= i < |v| ==> if i % 3 == 2 then v[i] == ':' else IsHex(v[i])
  }

  lemma PairsTail(v: string, n: nat)
    requires IsPairs(v, n) && n > 1
    ensures IsPairs(v[3..], n - 1)
  {
    forall i | 0 <= i < |v| - 3
      ensures if i % 3 == 2 then v[3..][i] == ':' else IsHex(v[3..][i])
    {
      assert v[3..][i] == v[i + 3] && (i + 3) % 3 == i % 3;
    }
  }

  lemma FirstPair(v: string)
    requires |v| >= 3 && v[2] == ':'
    ensures v == [v[0], v[1]] + ":" + v[3..]
  {
  }

  function PairValue(a: char, b: char): Byte
    requires IsHex(a) && IsHex(b)
  {
    16 * DigitValue(a) + DigitValue(b)
  }

  /** A byte read from a pair of digits, in front of others, prints as that pair in lower case. */
  lemma PrintPair(a: char, b: char, rest: seq<Byte>)
    requires IsHex(a) && IsHex(b)
    ensures ColonHex([PairValue(a, b)] + rest)
         == if rest == [] then [LowerChar(a), LowerChar(b)] else [LowerChar(a), LowerChar(b)] + ":" + ColonHex(rest)
  {
    HexCase(a);
    HexCase(b);
    var block := [PairValue(a, b)] + rest;
    assert block[0] / 16 == DigitValue(a) && block[0] % 16 == DigitValue(b) && block[1..] == rest;
  }

  /** Cleaning a pair of digits and what follows it, up to a separator. */
  lemma CleanedPair(a: char, b: char, tail: string)
    requires IsHex(a) && IsHex(b) && (tail == "" || tail[0] == ':')
    ensures Cleaned([a, b] + tail) == [UpperChar(a), UpperChar(b)] + (if tail == "" then "" else Cleaned(tail[1..]))
  {
    HexCase(a);
    HexCase(b);
    var s := [a, b] + tail;
    assert s[1..] == [b] + tail && s[1..][1..] == tail;
    assert WithoutSeparators(s) == [a] + ([b] + WithoutSeparators(tail));
    assert tail != "" ==> WithoutSeparators(tail) == WithoutSeparators(tail[1..]);
  }

  lemma FromHexPair(pair: string, tail: string)
    requires |pair| == 2 && IsHex(pair[0]) && IsHex(pair[1]) && FromHex(tail).Some?
    ensures FromHex(pair + tail) == Some([PairValue(pair[0], pair[1])] + FromHex(tail).value)
  {
    assert (pair + tail)[2..] == tail;
  }

  /** The cleaned text `v` is `n` bytes in hexadecimal, and these print as `v` in lower case. */
  predicate ReadsBack(v: string, n: nat, bytes: seq<Byte>) {
    && |Cleaned(v)| == 2 * n && AllHex(Cleaned(v))
    && |bytes| == n && FromHex(Cleaned(v)) == Some(bytes) && ColonHex(bytes) == Lower(v)
  }

  /** A pair of digits in upper case reads as the byte the digits spell. */
  lemma ReadPair(a: char, b: char, tail: string)
    requires IsHex(a) && IsHex(b) && FromHex(tail).Some?
    ensures IsHex(UpperChar(a)) && IsHex(UpperChar(b))
    ensures FromHex([UpperChar(a), UpperChar(b)] + tail) == Some([PairValue(a, b)] + FromHex(tail).value)
  {
    HexCase(a);
    HexCase(b);
    FromHexPair([UpperChar(a), UpperChar(b)], tail);
  }

  lemma LowerAppend(s: string, t: string)
    ensures Lower(s + t) == Lower(s) + Lower(t)
  {
  }

  lemma LowerPair(a: char, b: char)
    ensures Lower([a, b]) == [LowerChar(a), LowerChar(b)] && Lower(":") == ":"
  {
  }

  lemma OnePair(a: char, b: char)
    requires IsHex(a) && IsHex(b)
    ensures ReadsBack([a, b], 1, [PairValue(a, b)])
  {
    CleanedPair(a, b, "");
    assert [a, b] + "" == [a, b] && [UpperChar(a), UpperChar(b)] + "" == [UpperChar(a), UpperChar(b)];
    ReadPair(a, b, "");
    PrintPair(a, b, []);
    assert [PairValue(a, b)] + [] == [PairValue(a, b)];
    LowerPair(a, b);
  }

  lemma OneMorePair(a: char, b: char, v: string, n: nat, rest: seq<Byte>)
    requires IsHex(a) && IsHex(b) && n > 0 && ReadsBack(v, n, rest)
    ensures ReadsBack([a, b] + ":" + v, n + 1, [PairValue(a, b)] + rest)
  {
    assert [a, b] + ":" + v == [a, b] + (":" + v) && (":" + v)[1..] == v;
    CleanedPair(a, b, ":" + v);
    ReadPair(a, b, Cleaned(v));
    PrintPair(a, b, rest);
    LowerPair(a, b);
    LowerAppend([a, b], ":");
    LowerAppend([a, b] + ":", v);
  }

  /** The digits of a colon text, in upper case, are the bytes whose colon printing is the text in lower case. */
  lemma {:induction false} PairsRoundTrip(v: string, n: nat) returns (bytes: seq<Byte>)
    requires n > 0 && IsPairs(v, n)
    ensures ReadsBack(v, n, bytes)
  {
    assert IsHex(v[0]) && IsHex(v[1]);
    if n == 1 {
      OnePair(v[0], v[1]);
      bytes := [PairValue(v[0], v[1])];
      assert v == [v[0], v[1]];
    } else {
      PairsTail(v, n);
      var rest := PairsRoundTrip(v[3..], n - 1);
      bytes := [PairValue(v[0], v[1])] + rest;
      OneMorePair(v[0], v[1], v[3..], n - 1, rest);
      FirstPair(v);
    }
  }

  // ---- The packet ----

  lemma {:induction false} TimesAt(block: seq<Byte>, n: nat, i: nat)
    requires |block| == 6 && i < 6 * n
    ensures Times(block, n)[i] == block[i % 6]
  {
    if i < 6 * (n - 1) {
      TimesAt(block, n - 1, i);
    } else {
      assert i % 6 == i - 6 * (n - 1);
    }
  }

  /** The packet around one address block. */
  lemma PacketLayout(bytes: seq<Byte>)
    requires |bytes| == 6
    ensures var packet := Times([255], 6) + Times(bytes, 16);
            && |packet| == 102
            && (forall i :: 0 <= i < 6 ==> packet[i] == 255)
            && (forall i :: 6 <= i < 102 ==> packet[i] == bytes[i % 6])
  {
    SixFF();
    forall i | 6 <= i < 102
      ensures (Times([255], 6) + Times(bytes, 16))[i] == bytes[i % 6]
    {
      TimesAt(bytes, 16, i - 6);
      Behind(Times([255], 6), Times(bytes, 16), i);
      assert (i - 6) % 6 == i % 6;
    }
  }

  lemma Behind(front: seq<Byte>, back: seq<Byte>, i: nat)
    requires |front| <= i < |front| + |back|
    ensures (front + back)[i] == back[i - |front|]
  {
  }

  // ---- Which addresses are accepted ----

  /** A printed byte, and what follows it: digits, with a colon at every third place. */
  lemma {:induction false} ColonHexIsPairs(block: seq<Byte>)
    requires block != []
    ensures IsPairs(ColonHex(block), |block|)
  {
    if |block| > 1 {
      ColonHexIsPairs(block[1..]);
      PairInFront(LowerDigit(block[0] / 16), LowerDigit(block[0] % 16), ColonHex(block[1..]), |block| - 1);
    }
  }

  lemma PairInFront(a: char, b: char, rest: string, n: nat)
    requires IsHex(a) && IsHex(b) && IsPairs(rest, n)
    ensures IsPairs([a, b] + ":" + rest, n + 1)
  {
    var text := [a, b] + ":" + rest;
    forall i | 0 <= i < |text|
      ensures if i % 3 == 2 then text[i] == ':' else IsHex(text[i])
    {
      if i >= 3 {
        assert text[i] == rest[i - 3] && i % 3 == (i - 3) % 3;
      }
    }
  }

  lemma LowerCharTells(c: char)
    ensures LowerChar(c) == ':' <==> c == ':'
    ensures IsHex(LowerChar(c)) <==> IsHex(c)
  {
  }

  lemma LowerTells(v: string, n: nat)
    requires IsPairs(Lower(v), n)
    ensures IsPairs(v, n)
  {
    forall i | 0 <= i < |v|
      ensures if i % 3 == 2 then v[i] == ':' else IsHex(v[i])
    {
      LowerCharTells(v[i]);
      assert Lower(v)[i] == LowerChar(v[i]);
    }
  }

  /** The text is the colon form of some six bytes, in either case. */
  ghost predicate IsMacOf(v: string, block: seq<Byte>) {
    |block| == 6 && Lower(v) == ColonHex(block)
  }

  /** The text is the colon form of six bytes. */
  ghost predicate IsMac(v: string) {
    exists block :: IsMacOf(v, block)
  }

  lemma MacTextOf(v: string, block: seq<Byte>)
    requires IsMacOf(v, block)
    ensures IsMacText(v)
  {
    ColonHexIsPairs(block);
    LowerTells(v, 6);
  }

  lemma BlockOf(v: string) returns (block: seq<Byte>)
    requires IsMacText(v)
    ensures IsMacOf(v, block) && FromHex(Cleaned(v)) == Some(block) && |Cleaned(v)| == 12
  {
    assert IsPairs(v, 6);
    block := PairsRoundTrip(v, 6);
  }

  /** `_validate_mac` accepts the colon form of every six bytes, in lower case, upper case or both, and gives it back in lower
      case; and it accepts nothing else but such a text with a newline behind it. */
  lemma AcceptedIffColonForm(v: string)
    ensures forall block :: IsMacOf(v, block) ==> ValidateMac(v) == Success(ColonHex(block))
    ensures ValidateMac(v).Success? <==>
              IsMac(v) || (v != "" && v[|v| - 1] == '\n' && IsMac(v[..|v| - 1]))
    ensures ValidateMac(v).Success? ==> ValidateMac(v).value == Lower(v)
  {
    forall block | IsMacOf(v, block)
      ensures ValidateMac(v) == Success(ColonHex(block))
    {
      MacTextOf(v, block);
    }
    if IsMacText(v) {
      var block := BlockOf(v);
    }
    if v != "" && v[|v| - 1] == '\n' {
      var front := v[..|v| - 1];
      if IsMacText(front) {
        var block := BlockOf(front);
        assert |v| == 18;
      }
      if block :| IsMacOf(front, block) {
        MacTextOf(front, block);
        assert |v| == 18;
      }
    }
  }

  /** The packet for the address of six bytes, however it was typed: six times FF, then the six bytes sixteen times. */
  lemma PacketOfMac(v: string, block: seq<Byte>)
    requires |block| == 6 && Lower(v) == ColonHex(block)
    ensures ValidateMac(v) == Success(ColonHex(block)) && BuildPacket(ValidateMac(v).value).Success?
    ensures var packet := BuildPacket(ValidateMac(v).value).value;
            && |packet| == 102
            && (forall i :: 0 <= i < 6 ==> packet[i] == 255)
            && (forall i :: 6 <= i < 102 ==> packet[i] == block[i % 6])
  {
    MacTextOf(v, block);
    LowerIsMac(v);
    var bytes := BlockOf(Lower(v));
    assert Lower(Lower(v)) == Lower(v);
    ColonHexIsInjective(bytes, block);
    PacketLayout(block);
    assert BuildPacket(Lower(v)) == Success(Times([255], 6) + Times(block, 16));
  }

  /** No two byte strings print alike. */
  lemma {:induction false} ColonHexIsInjective(a: seq<Byte>, b: seq<Byte>)
    requires |a| == |b| && ColonHex(a) == ColonHex(b)
    ensures a == b
  {
    if a != [] {
      PrintedByte(a);
      PrintedByte(b);
      if |a| > 1 {
        ColonHexIsInjective(a[1..], b[1..]);
        assert a == [a[0]] + a[1..] && b == [b[0]] + b[1..];
      }
    }
  }

  /** The first two characters tell the first byte. */
  lemma PrintedByte(a: seq<Byte>)
    requires a != []
    ensures |ColonHex(a)| >= 2 && a[0] == 16 * DigitValue(ColonHex(a)[0]) + DigitValue(ColonHex(a)[1])
    ensures |a| > 1 ==> |ColonHex(a)| > 3 && ColonHex(a)[3..] == ColonHex(a[1..])
  {
    var pair := [LowerDigit(a[0] / 16), LowerDigit(a[0] % 16)];
    if |a| > 1 {
      TailOf(pair, ColonHex(a[1..]));
      ColonHexIsPairs(a[1..]);
    }
  }

  lemma TailOf(pair: string, rest: string)
    requires |pair| == 2
    ensures (pair + ":" + rest)[3..] == rest && (pair + ":" + rest)[0] == pair[0] && (pair + ":" + rest)[1] == pair[1]
  {
  }

  lemma SixFF()
    ensures Times([255], 6) == [255, 255, 255, 255, 255, 255]
  {
    assert Times([255], 3) == [255, 255, 255];
  }

  lemma LowerIsMac(v: string)
    requires IsMacText(v)
    ensures IsMacText(Lower(v))
  {
    forall i | 0 <= i < 17
      ensures if i % 3 == 2 then Lower(v)[i] == ':' else IsHex(Lower(v)[i])
    {
      if i % 3 != 2 { HexCase(v[i]); }
    }
  }

  /** Not every address `_validate_mac` accepts can be sent: it lets a trailing newline through, and then the packet
      builder refuses its own validated input. A packet is built for an accepted address exactly when the address has
      the 17 characters that the request schema separately asks for. */
  lemma ValidatedIsSendableIffLength17(v: string)
    requires ValidateMac(v).Success?
    ensures BuildPacket(ValidateMac(v).value).Success? <==> |v| == 17
    ensures |v| == 17 <==> IsMac(v)
  {
    if |v| == 17 {
      var block := BlockOf(v);
      PacketOfMac(v, block);
    } else {
      var front := v[..17];
      LowerIsMac(front);
      var bytes := BlockOf(Lower(front));
      assert Lower(v) == Lower(front) + "\n";
      WithoutSeparatorsAppend(Lower(front), "\n");
      assert WithoutSeparators("\n") == "\n";
      forall block
        ensures !IsMacOf(v, block)
      {
        if IsMacOf(v, block) {
          MacTextOf(v, block);
          assert false;
        }
      }
    }
  }

  lemma TrailingNewlineIsAccepted()
    ensures ValidateMac("00:00:00:00:00:00\n").Success? && BuildPacket(ValidateMac("00:00:00:00:00:00\n").value).Failure?
  {
    assert "00:00:00:00:00:00\n"[..17] == "00:00:00:00:00:00";
    assert IsMacText("00:00:00:00:00:00");
    ValidatedIsSendableIffLength17("00:00:00:00:00:00\n");
  }

  lemma {:induction false} WithoutSeparatorsAppend(a: string, b: string)
    ensures WithoutSeparators(a + b) == WithoutSeparators(a) + WithoutSeparators(b)
  {
    if a == "" {
      assert a + b == b;
    } else {
      assert (a + b)[1..] == a[1..] + b;
      WithoutSeparatorsAppend(a[1..], b);
    }
  }

  /** The two characters stand for the same thing in a MAC address: a digit in either case, or either separator. */
  predicate SameMark(a: char, b: char) {
    a == b || (IsHex(a) && IsHex(b) && DigitValue(a) == DigitValue(b)) || (a in {':', '-'} && b in {':', '-'})
  }

  lemma SameMarkUpper(a: char, b: char)
    requires SameMark(a, b)
    ensures UpperChar(a) == UpperChar(b) || (a in {':', '-'} && b in {':', '-'})
    ensures a in {':', '-'} <==> b in {':', '-'}
  {
  }

  lemma SpellingTail(a: string, b: string)
    requires a != "" && |a| == |b| && forall i :: 0 <= i < |a| ==> SameMark(a[i], b[i])
    ensures forall i :: 0 <= i < |a[1..]| ==> SameMark(a[1..][i], b[1..][i])
  {
  }

  /** Neither the case of the digits nor the choice of separator changes the packet, or whether there is one. */
  lemma {:induction false} SpellingIsImmaterial(a: string, b: string)
    requires |a| == |b| && forall i :: 0 <= i < |a| ==> SameMark(a[i], b[i])
    ensures Cleaned(a) == Cleaned(b) && BuildPacket(a) == BuildPacket(b)
  {
    if a != "" {
      SameMarkUpper(a[0], b[0]);
      SpellingTail(a, b);
      SpellingIsImmaterial(a[1..], b[1..]);
      CleanedCons(a);
      CleanedCons(b);
    }
  }

  lemma CleanedCons(s: string)
    requires s != ""
    ensures Cleaned(s) == if s[0] in {':', '-'} then Cleaned(s[1..]) else [UpperChar(s[0])] + Cleaned(s[1..])
  {
  }

  /** A text yields at most half as many bytes as it has characters, and exactly half if it is digits throughout. */
  predicate HalfIffDigits(s: string) {
    && (FromHex(s).Some? ==> 2 * |FromHex(s).value| <= |s|)
    && (FromHex(s).Some? && 2 * |FromHex(s).value| == |s| ==> AllHex(s))
    && (|s| % 2 == 0 && AllHex(s) ==> FromHex(s).Some? && 2 * |FromHex(s).value| == |s|)
  }

  lemma HalfAfterSpace(s: string)
    requires s != "" && IsSpace(s[0]) && HalfIffDigits(s[1..])
    ensures HalfIffDigits(s)
  {
    assert s[0] in s && !IsHex(s[0]);
  }

  lemma HalfAfterPair(s: string)
    requires |s| >= 2 && !IsSpace(s[0]) && HalfIffDigits(s[2..])
    ensures HalfIffDigits(s)
  {
    AllHexSplits(s);
    assert |s| == |s[2..]| + 2;
  }

  lemma {:induction false} FromHexLength(s: string)
    ensures HalfIffDigits(s)
    decreases |s|
  {
    if s == "" {
    } else if IsSpace(s[0]) {
      FromHexLength(s[1..]);
      HalfAfterSpace(s);
    } else if |s| >= 2 {
      FromHexLength(s[2..]);
      HalfAfterPair(s);
    }
  }

  lemma AllHexSplits(s: string)
    requires |s| >= 2
    ensures AllHex(s) <==> IsHex(s[0]) && IsHex(s[1]) && AllHex(s[2..])
  {
    assert s[0] in s && s[1] in s && s == [s[0], s[1]] + s[2..];
    assert forall c :: c in s[2..] ==> c in s;
  }

  /** The length test in `_build_magic_packet` counts characters, not digits. For any text it builds a packet of the
      proper 102 bytes exactly when the cleaned text is twelve hexadecimal digits; white space inside the twelve
      characters gets past it and makes a shorter packet. */
  lemma ProperPacketIffTwelveDigits(mac: string)
    ensures BuildPacket(mac).Success? && |BuildPacket(mac).value| == 102
            <==> |Cleaned(mac)| == 12 && AllHex(Cleaned(mac))
    ensures BuildPacket(mac).Success? ==> |BuildPacket(mac).value| <= 102
  {
    FromHexLength(Cleaned(mac));
  }

  const SPACED_ZEROS := "00 00000000 "

  /** For instance, ten digits and two spaces make a packet of 86 bytes. */
  lemma SpacesShortenThePacket()
    ensures BuildPacket(SPACED_ZEROS).Success? && |BuildPacket(SPACED_ZEROS).value| == 86
  {
    CleanAlready(SPACED_ZEROS);
    FiveZeros();
  }

  lemma CleanAlready(s: string)
    requires forall c :: c in s ==> c == '0' || c == ' '
    ensures Cleaned(s) == s
  {
    NothingToRemove(s);
    assert forall i :: 0 <= i < |s| ==> s[i] in s;
  }

  lemma FiveZeros()
    ensures FromHex(SPACED_ZEROS).Some? && |FromHex(SPACED_ZEROS).value| == 5
  {
    FourZeros();
    var tail := " " + "00000000 ";
    assert tail[1..] == "00000000 ";
    FromHexPair("00", tail);
    assert SPACED_ZEROS == "00" + tail;
  }

  lemma FourZeros()
    ensures FromHex("00000000 ").Some? && |FromHex("00000000 ").value| == 4
  {
    assert FromHex(" ") == Some([]) by { assert " "[1..] == ""; }
    FromHexPair("00", " ");
    assert "00" + " " == "00 ";
    FromHexPair("00", "00 ");
    assert "00" + "00 " == "0000 ";
    FromHexPair("00", "0000 ");
    assert "00" + "0000 " == "000000 ";
    FromHexPair("00", "000000 ");
    assert "00" + "000000 " == "00000000 ";
  }

  lemma {:induction false} NothingToRemove(s: string)
    requires forall c :: c in s ==> c != ':' && c != '-'
    ensures WithoutSeparators(s) == s
  {
    if s != "" {
      assert s[0] in s && forall c :: c in s[1..] ==> c in s;
      NothingToRemove(s[1..]);
      assert s == [s[0]] + s[1..];
    }
  }
}
