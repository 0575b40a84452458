/** The two text conversions the source leans on, for ASCII text: `int(text, base)` and its inverse, the
    digits `str` and the kernel print. */
module PythonText {
  import opened Wrappers

  /** White space as C's isspace has it: what `int` strips and `bytes.fromhex` skips. */
  predicate IsSpace(c: char) {
    c in {' ', '\t', '\n', '\r', 11 as char, 12 as char}
  }

  /** White space as `str.isspace` has it, with the four separator controls: what `str.split` and `\s` take. */
  predicate IsTextSpace(c: char) {
    IsSpace(c) || 28 <= c as int <= 31
  }

  function StripLeft(s: string): string {
    if s != "" && IsSpace(s[0]) then StripLeft(s[1..]) else s
  }

  function StripRight(s: string): string {
    if s != "" && IsSpace(s[|s| - 1]) then StripRight(s[..|s| - 1]) else s
  }

  /** The value of a digit, 16 for any other character. */
  function DigitValue(c: char): (v: nat)
    ensures v <= 16
  {
    if '0' <= c <= '9' then c as int - '0' as int
    else if 'a' <= c <= 'f' then c as int - 'a' as int + 10
    else if 'A' <= c <= 'F' then c as int - 'A' as int + 10
    else 16
  }

  /** Digits with single underscores between them; None when the text is anything else. */
  function ParseDigits(s: string, base: nat): Option<nat>
    requires base == 10 || base == 16
  {
    if s == "" || DigitValue(s[|s| - 1]) >= base then None
    else
      var d := DigitValue(s[|s| - 1]);
      var rest := s[..|s| - 1];
      if rest == "" then Some(d)
      else
        var high := ParseDigits(if rest[|rest| - 1] == '_' then rest[..|rest| - 1] else rest, base);
        if high.None? then None else Some(high.value * base + d)
  }

  /** `int(s, base)`, with None for ValueError. Base 16 admits a 0x prefix. */
  function ParseInt(s: string, base: nat): Option<int>
    requires base == 10 || base == 16
  {
    var t := StripLeft(StripRight(s));
    var signed := t != "" && t[0] in {'-', '+'};
    var u := if signed then t[1..] else t;
    var prefixed := base == 16 && |u| >= 2 && u[0] == '0' && u[1] in {'x', 'X'};
    var body := if !prefixed then u else if |u| > 2 && u[2] == '_' then u[3..] else u[2..];
    var n := ParseDigits(body, base);
    if n.None? then None else Some(if signed && t[0] == '-' then -(n.value as int) else n.value as int)
  }

  function Digit(v: nat): (c: char)
    requires v < 16
    ensures DigitValue(c) == v && c != '_' && c != 'x' && c != 'X' && c != '-' && c != '+' && !IsTextSpace(c)
  {
    "0123456789ABCDEF"[v]
  }

  /** The shortest decimal numeral of `n`. */
  function Numeral(n: nat): (s: string)
    ensures s != ""
  {
    if n < 10 then [Digit(n)] else Numeral(n / 10) + [Digit(n % 10)]
  }

  /** `str(n)` for an integer. */
  function Decimal(n: int): string {
    if n < 0 then "-" + Numeral(-n) else Numeral(n)
  }

  /** The low `width` hexadecimal digits of `n`, zero-padded: the kernel's %08X for width 8. */
  function Hex(n: nat, width: nat): (s: string)
    ensures |s| == width
  {
    if width == 0 then "" else Hex(n / 16, width - 1) + [Digit(n % 16)]
  }

  /** 16 to the power `width`. */
  function HexLimit(width: nat): nat {
    if width == 0 then 1 else 16 * HexLimit(width - 1)
  }

  predicate AllDigits(s: string) {
    forall c :: c in s ==> DigitValue(c) < 16 && c != '_' && c != 'x' && c != 'X' && c != '-' && c != '+' && !IsSpace(c)
  }

  lemma ParseAppend(high: string, h: nat, d: nat, base: nat, n: nat)
    requires base == 10 || base == 16
    requires d < base && n == h * base + d
    requires high != "" && AllDigits(high) && ParseDigits(high, base) == Some(h)
    ensures ParseDigits(high + [Digit(d)], base) == Some(n) && AllDigits(high + [Digit(d)])
  {
    var s := high + [Digit(d)];
    assert s[..|s| - 1] == high;
    assert high[|high| - 1] in high;
  }

  lemma {:induction false} NumeralRoundTrip(n: nat)
    ensures ParseDigits(Numeral(n), 10) == Some(n) && AllDigits(Numeral(n))
  {
    if n >= 10 {
      NumeralRoundTrip(n / 10);
      ParseAppend(Numeral(n / 10), n / 10, n % 10, 10, n);
    }
  }

  lemma OneHexDigit(n: nat)
    requires n < HexLimit(1)
    ensures ParseDigits(Hex(n, 1), 16) == Some(n) && AllDigits(Hex(n, 1))
  {
    assert HexLimit(1) == 16 * HexLimit(0);
    assert Hex(n, 1) == [Digit(n)];
  }

  lemma {:induction false} HexDigitsRoundTrip(n: nat, width: nat)
    requires width > 0 && n < HexLimit(width)
    ensures ParseDigits(Hex(n, width), 16) == Some(n) && AllDigits(Hex(n, width))
  {
    if width > 1 {
      HexDigitsRoundTrip(n / 16, width - 1);
      ParseAppend(Hex(n / 16, width - 1), n / 16, n % 16, 16, n);
    } else {
      OneHexDigit(n);
    }
  }

  lemma StripKeeps(s: string)
    requires s != "" && !IsSpace(s[0]) && !IsSpace(s[|s| - 1])
    ensures StripLeft(StripRight(s)) == s
  {
  }

  lemma PlainTextParses(s: string, n: nat, base: nat)
    requires base == 10 || base == 16
    requires s != "" && AllDigits(s) && ParseDigits(s, base) == Some(n)
    ensures ParseInt(s, base) == Some(n)
  {
    assert s[0] in s && s[|s| - 1] in s;
    StripKeeps(s);
    if |s| > 1 { assert s[1] in s; }
  }

  lemma NegativeTextParses(s: string, n: int)
    requires n >= 0 && s != "" && AllDigits(s) && ParseDigits(s, 10) == Some(n)
    ensures ParseInt("-" + s, 10) == Some(-n)
  {
    var t := "-" + s;
    assert s[|s| - 1] in s && t[|t| - 1] == s[|s| - 1];
    StripKeeps(t);
    assert t[1..] == s;
  }

  lemma NaturalRoundTrip(n: nat)
    ensures ParseInt(Numeral(n), 10) == Some(n)
  {
    NumeralRoundTrip(n);
    PlainTextParses(Numeral(n), n, 10);
  }

  lemma NegativeRoundTrip(m: nat, n: int)
    requires m == -n
    ensures ParseInt("-" + Numeral(m), 10) == Some(n)
  {
    NumeralRoundTrip(m);
    NegativeTextParses(Numeral(m), m);
  }

  lemma DecimalOfNegative(n: int)
    requires n < 0
    ensures Decimal(n) == "-" + Numeral(-n)
  {
  }

  /** int(str(n)) is n, for every integer. */
  lemma DecimalRoundTrip(n: int)
    ensures ParseInt(Decimal(n), 10) == Some(n)
  {
    if n < 0 {
      DecimalOfNegative(n);
      NegativeRoundTrip(-n, n);
    } else {
      NaturalRoundTrip(n);
    }
  }

  /** A zero-padded hexadecimal numeral reads back as the number it was printed from. */
  lemma HexRoundTrip(n: nat, width: nat)
    requires width > 0 && n < HexLimit(width)
    ensures ParseInt(Hex(n, width), 16) == Some(n)
  {
    HexDigitsRoundTrip(n, width);
    PlainTextParses(Hex(n, width), n, 16);
  }

  /** The two kinds of white space by their codes. */
  lemma SpaceCodes(c: char)
    ensures IsSpace(c) <==> 9 <= c as int <= 13 || c as int == 32
    ensures IsTextSpace(c) <==> 9 <= c as int <= 13 || 28 <= c as int <= 32
  {
  }

  /** White space around a numeral, a plus sign, a 0x in front of hexadecimal digits, in either case and with an underscore
      behind it or not, and an underscore between digits do not matter. */
  lemma NumeralsWithTrimmings(n: nat, width: nat)
    requires width > 0 && n < HexLimit(width)
    ensures ParseInt(" " + Numeral(n) + "\n", 10) == Some(n)
    ensures ParseInt("+" + Numeral(n), 10) == Some(n)
    ensures forall prefix :: prefix in ["0x", "0X", "0x_", "0X_"] ==> ParseInt(prefix + Hex(n, width), 16) == Some(n)
    ensures ParseInt(Numeral(n) + "_0", 10) == Some(10 * n)
  {
    NumeralRoundTrip(n);
    HexDigitsRoundTrip(n, width);
    TrimmedParses(Numeral(n), n);
    PlusParses(Numeral(n), n);
    forall prefix | prefix in ["0x", "0X", "0x_", "0X_"]
      ensures ParseInt(prefix + Hex(n, width), 16) == Some(n)
    {
      PrefixedParses(prefix, Hex(n, width), n);
    }
    UnderscoreParses(Numeral(n), n);
  }

  lemma PlusParses(s: string, n: nat)
    requires s != "" && AllDigits(s) && ParseDigits(s, 10) == Some(n)
    ensures ParseInt("+" + s, 10) == Some(n)
  {
    var t := "+" + s;
    assert s[|s| - 1] in s && t[|t| - 1] == s[|s| - 1];
    StripKeeps(t);
    assert t[1..] == s;
  }

  lemma TrimmedParses(s: string, n: nat)
    requires s != "" && AllDigits(s) && ParseDigits(s, 10) == Some(n)
    ensures ParseInt(" " + s + "\n", 10) == Some(n)
  {
    var t := " " + s + "\n";
    assert s[0] in s && s[|s| - 1] in s;
    assert t[..|t| - 1] == " " + s && (" " + s)[|s|] == s[|s| - 1];
    assert StripRight(t) == " " + s;
    assert (" " + s)[1..] == s && StripLeft(" " + s) == s;
    StripKeeps(s);
    PlainTextParses(s, n, 10);
  }

  lemma PrefixedParses(prefix: string, s: string, n: nat)
    requires prefix in ["0x", "0X", "0x_", "0X_"]
    requires s != "" && AllDigits(s) && ParseDigits(s, 16) == Some(n)
    ensures ParseInt(prefix + s, 16) == Some(n)
  {
    var t := prefix + s;
    assert s[0] in s && s[|s| - 1] in s && t[|t| - 1] == s[|s| - 1];
    StripKeeps(t);
    assert t[|prefix|..] == s && t[|prefix|] == s[0];
  }

  lemma UnderscoreParses(s: string, n: nat)
    requires s != "" && AllDigits(s) && ParseDigits(s, 10) == Some(n)
    ensures ParseInt(s + "_0", 10) == Some(10 * n)
  {
    var t := s + "_0";
    assert s[0] in s && s[|s| - 1] in s && t[0] == s[0];
    StripKeeps(t);
    assert t[..|t| - 1] == s + "_" && (s + "_")[..|s|] == s && s[|s| - 1] != '_';
    assert ParseDigits(t, 10) == Some(n * 10 + 0);
  }
}
