/**
 * The catalogue-number parse the loader applies to file names and file
 * lines: `(gint) g_ascii_strtoll (s, NULL, 0)`. Base 0 means a "0x" or "0X"
 * prefix selects hexadecimal, a leading "0" octal, anything else decimal; the
 * parse skips leading white space, takes an optional sign, reads the longest
 * run of digits of the base, gives 0 when there is none, saturates at the
 * 64-bit limits, and the cast to gint keeps the low 32 bits two's complement.
 */
module GlibNumber {

  const MinInt64: int := -0x8000_0000_0000_0000
  const MaxInt64: int := 0x7FFF_FFFF_FFFF_FFFF
  const MinGint: int := -0x8000_0000
  const MaxGint: int := 0x7FFF_FFFF

  /** White space skipped by GLib's number parser (this set includes vertical tab). */
  predicate IsParseSpace(c: char) {
    c == ' ' || c == '\t' || c == '\n' || c == '\r' || c == '\U{000B}' || c == '\U{000C}'
  }

  function SkipParseSpace(s: string): string {
    if |s| > 0 && IsParseSpace(s[0]) then SkipParseSpace(s[1..]) else s
  }

  /** The skip drops a prefix of white space and stops at the first other character. */
  lemma {:induction false} SkipParseSpaceShape(s: string)
    ensures var r := SkipParseSpace(s);
      && |r| <= |s| && r == s[|s| - |r|..]
      && (forall k :: 0 <= k < |s| - |r| ==> IsParseSpace(s[k]))
      && (r == [] || !IsParseSpace(r[0]))
  {
    if |s| > 0 && IsParseSpace(s[0]) {
      SkipParseSpaceShape(s[1..]);
    }
  }

  /** The value of a digit in bases up to 36; 36 for a character that is no digit. */
  function DigitValue(c: char): (d: nat)
    ensures d <= 36
  {
    if '0' <= c <= '9' then c as int - '0' as int
    else if 'a' <= c <= 'z' then c as int - 'a' as int + 10
    else if 'A' <= c <= 'Z' then c as int - 'A' as int + 10
    else 36
  }

  /** The length of the longest prefix of `s` made of digits of `base`. */
  function DigitRun(s: string, base: nat): (n: nat)
    ensures n <= |s|
  {
    if |s| > 0 && DigitValue(s[0]) < base then 1 + DigitRun(s[1..], base) else 0
  }

  /** The run is the longest prefix of digits: every character in it is a
      digit of the base, and the character after it is not. */
  lemma {:induction false} DigitRunLongest(s: string, base: nat)
    ensures var n := DigitRun(s, base);
      && (forall k :: 0 <= k < n ==> DigitValue(s[k]) < base)
      && (n < |s| ==> DigitValue(s[n]) >= base)
  {
    if |s| > 0 && DigitValue(s[0]) < base {
      DigitRunLongest(s[1..], base);
    }
  }

  /** The number a string of digits denotes in `base`, most significant first. */
  function DigitsValue(d: string, base: nat): nat {
    if |d| == 0 then 0 else DigitsValue(d[..|d| - 1], base) * base + DigitValue(d[|d| - 1])
  }

  /** What GLib's unsigned scan finds: the sign and the unbounded magnitude. */
  datatype Scan = Scan(negative: bool, magnitude: nat)

  /** The text after an optional '+' or '-'. */
  function AfterSign(t: string): (u: string)
    ensures |u| <= |t|
  {
    if |t| > 0 && (t[0] == '-' || t[0] == '+') then t[1..] else t
  }

  predicate HexPrefix(u: string) {
    |u| >= 2 && u[0] == '0' && (u[1] == 'x' || u[1] == 'X')
  }

  /** Base 0: "0x" or "0X" gives 16, a leading "0" gives 8, otherwise 10. */
  function Base(u: string): (b: nat)
    ensures b == 8 || b == 10 || b == 16
  {
    if HexPrefix(u) then 16 else if |u| > 0 && u[0] == '0' then 8 else 10
  }

  /** The digits start after "0x"; an octal number keeps its leading zero. */
  function DigitText(u: string): string {
    if HexPrefix(u) then u[2..] else u
  }

  /** The value of the longest run of digits of the base; 0 when there is none. */
  function Magnitude(u: string): nat {
    var d := DigitText(u);
    DigitsValue(d[..DigitRun(d, Base(u))], Base(u))
  }

  function ScanNumber(s: string): Scan {
    var t := SkipParseSpace(s);
    Scan(|t| > 0 && t[0] == '-', Magnitude(AfterSign(t)))
  }

  /** g_ascii_strtoll (s, NULL, 0): the signed value, saturated to 64 bits. */
  function StrToInt64(s: string): (r: int)
    ensures MinInt64 <= r <= MaxInt64
  {
    var n := ScanNumber(s);
    if n.negative then
      (if n.magnitude > -MinInt64 then MinInt64 else -(n.magnitude as int))
    else
      (if n.magnitude > MaxInt64 then MaxInt64 else n.magnitude)
  }

  /** The cast to gint: the low 32 bits, read as two's complement, that is
      the value brought into the gint range by whole multiples of 2^32. */
  function ToGint(x: int): (r: int)
    ensures MinGint <= r <= MaxGint
    ensures MinGint <= x <= MaxGint ==> r == x
    decreases if x > MaxGint then x - MaxGint else if x < MinGint then MinGint - x else 0
  {
    if x > MaxGint then ToGint(x - 0x1_0000_0000)
    else if x < MinGint then ToGint(x + 0x1_0000_0000)
    else x
  }

  /** The cast keeps the value modulo 2^32. */
  lemma {:induction false} ToGintCongruent(x: int)
    ensures (x - ToGint(x)) % 0x1_0000_0000 == 0
    decreases if x > MaxGint then x - MaxGint else if x < MinGint then MinGint - x else 0
  {
    if x > MaxGint {
      ToGintCongruent(x - 0x1_0000_0000);
    } else if x < MinGint {
      ToGintCongruent(x + 0x1_0000_0000);
    }
  }

  /** The catalogue number the loader derives from a piece of text. */
  function ParseCatnum(s: string): (n: int)
    ensures MinGint <= n <= MaxGint
  {
    ToGint(StrToInt64(s))
  }

  // ---------------------------------------------------------------------------
  // Decimal rendering and the round trip
  // ---------------------------------------------------------------------------

  function DigitChar(d: nat): (c: char)
    requires d < 10
    ensures DigitValue(c) == d
  {
    (d + '0' as int) as char
  }

  /** The decimal rendering of `n`, without leading zeros. */
  function Decimal(n: nat): (s: string)
    ensures |s| >= 1
    ensures forall k :: 0 <= k < |s| ==> DigitValue(s[k]) < 10
    ensures n > 0 ==> s[0] != '0'
    ensures DigitsValue(s, 10) == n
  {
    if n < 10 then [DigitChar(n)]
    else
      var s := Decimal(n / 10) + [DigitChar(n % 10)];
      assert s[..|s| - 1] == Decimal(n / 10);
      s
  }

  /** A run that covers the whole string. */
  lemma {:induction false} DigitRunAll(s: string, base: nat)
    requires forall k :: 0 <= k < |s| ==> DigitValue(s[k]) < base
    ensures DigitRun(s, base) == |s|
  {
    if |s| > 0 {
      assert DigitValue(s[0]) < base;
      DigitRunAll(s[1..], base);
    }
  }

  /** A catalogue number written in decimal reads back as itself. */
  lemma ParseDecimal(n: nat)
    requires n <= MaxGint
    ensures ParseCatnum(Decimal(n)) == n
  {
    var s := Decimal(n);
    assert !IsParseSpace(s[0]) && s[0] != '-' && s[0] != '+';
    assert SkipParseSpace(s) == s;
    assert AfterSign(s) == s;
    assert !HexPrefix(s);
    assert DigitText(s) == s;
    if n == 0 {
      assert s == "0";
      assert Base(s) == 8;
      assert DigitsValue(s, 8) == DigitsValue([], 8) * 8 + DigitValue('0') == 0;
    } else {
      assert Base(s) == 10;
    }
    DigitRunAll(s, Base(s));
    assert s[..|s|] == s;
    assert DigitsValue(s, Base(s)) == n;
    assert Magnitude(s) == n;
    assert ScanNumber(s) == Scan(false, n);
    assert StrToInt64(s) == n;
  }

  /** A leading zero selects octal, as base 0 prescribes: "010" is 8. */
  lemma OctalPrefix()
    ensures ParseCatnum("010") == 8
  {
    var s := "010";
    assert SkipParseSpace(s) == s && AfterSign(s) == s;
    assert Base(s) == 8 && DigitText(s) == s;
    DigitRunAll(s, 8);
    assert s[..3] == s;
    assert s[..2] == "01" && "01"[..1] == "0";
    assert DigitsValue(s, 8) == 8;
  }

  /** Octal parsing stops at '8': "08" is 0, not 8. */
  lemma OctalStopsAtEight()
    ensures ParseCatnum("08") == 0
  {
    var s := "08";
    assert SkipParseSpace(s) == s && AfterSign(s) == s;
    assert Base(s) == 8 && DigitText(s) == s;
    assert DigitRun(s, 8) == 1;
    assert s[..1] == "0";
    assert DigitsValue("0", 8) == 0;
  }

  /** White space and sign come before the "0x" prefix: " -0x1A" is -26. */
  lemma SignedHex()
    ensures ParseCatnum(" -0x1A") == -26
  {
    var s := " -0x1A";
    assert s[1..] == "-0x1A";
    assert SkipParseSpace("-0x1A") == "-0x1A";
    assert SkipParseSpace(s) == "-0x1A";
    assert "-0x1A"[1..] == "0x1A";
    assert AfterSign("-0x1A") == "0x1A";
    assert HexPrefix("0x1A");
    assert "0x1A"[2..] == "1A";
    assert Base("0x1A") == 16 && DigitText("0x1A") == "1A";
    DigitRunAll("1A", 16);
    assert "1A"[..2] == "1A";
    assert "1A"[..1] == "1";
    assert DigitsValue("1", 16) == 1;
    assert DigitsValue("1A", 16) == 26;
    assert Magnitude("0x1A") == 26;
    assert ScanNumber(s) == Scan(true, 26);
  }
}
