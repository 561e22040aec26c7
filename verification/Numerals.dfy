/** Numbers as the hash fields hold them: `str(int)` and `f"{t:.6f}"`, and their readers. */
module Numerals {
  import opened Text
  import opened Options

  const MICROS: nat := 1_000_000

  predicate IsDigit(c: char) {
    '0' <= c <= '9'
  }

  function DigitChar(d: nat): (c: char)
    requires d < 10
    ensures IsDigit(c) && DigitValue(c) == d
  {
    d as char + '0'
  }

  function DigitValue(c: char): (d: nat)
    requires IsDigit(c)
    ensures d < 10
  {
    (c - '0') as nat
  }

  // ----- natural numbers -------------------------------------------------------------------------

  function PrintNat(n: nat): (s: string)
    ensures s != "" && forall c | c in s :: IsDigit(c)
  {
    if n < 10 then [DigitChar(n)] else PrintNat(n / 10) + [DigitChar(n % 10)]
  }

  /** Exactly `width` digits. */
  function PrintPadded(n: nat, width: nat): (s: string)
    ensures |s| == width && forall c | c in s :: IsDigit(c)
  {
    if width == 0 then "" else PrintPadded(n / 10, width - 1) + [DigitChar(n % 10)]
  }

  function ParseNat(s: string): Option<nat> {
    if s == "" || !IsDigit(s[|s| - 1]) then None
    else if |s| == 1 then Some(DigitValue(s[0]))
    else match ParseNat(s[..|s| - 1])
      case None => None
      case Some(n) => Some(10 * n + DigitValue(s[|s| - 1]))
  }

  lemma ParseSnoc(s: string, d: nat)
    requires s != "" && d < 10
    ensures ParseNat(s + [DigitChar(d)]) ==
      match ParseNat(s) case None => None case Some(n) => Some(10 * n + d)
  {
    var t := s + [DigitChar(d)];
    assert t[..|t| - 1] == s;
  }

  lemma {:induction false} ParsePrinted(n: nat)
    ensures ParseNat(PrintNat(n)) == Some(n)
  {
    if n >= 10 {
      ParsePrinted(n / 10);
      ParseSnoc(PrintNat(n / 10), n % 10);
    }
  }

  function Power10(width: nat): nat {
    if width == 0 then 1 else 10 * Power10(width - 1)
  }

  lemma {:induction false} ParsePadded(n: nat, width: nat)
    requires width > 0 && n < Power10(width)
    ensures ParseNat(PrintPadded(n, width)) == Some(n)
  {
    if width == 1 {
      assert PrintPadded(n / 10, 0) == "";
      assert PrintPadded(n, 1) == [DigitChar(n % 10)];
    } else {
      ParsePadded(n / 10, width - 1);
      ParseSnoc(PrintPadded(n / 10, width - 1), n % 10);
    }
  }

  // ----- integers ------------------------------------------------------------------------------------

  function Magnitude(n: int): nat {
    if n < 0 then -n else n
  }

  function Signed(n: int, unsigned: string): string {
    if n < 0 then "-" + unsigned else unsigned
  }

  function PrintInt(n: int): string {
    Signed(n, PrintNat(Magnitude(n)))
  }

  function WithSign(negative: bool, magnitude: Option<nat>): Option<int> {
    match magnitude
    case None => None
    case Some(n) =>
      var value: int := if negative then 0 - n else n;
      Some(value)
  }

  /** Reads a sign, then the rest with `parse`. */
  function ParseSigned(s: string, parse: string -> Option<nat>): Option<int> {
    if s == "" then None
    else WithSign(s[0] == '-', parse(if s[0] == '-' || s[0] == '+' then s[1..] else s))
  }

  /** `_to_int` */
  function ToInt(value: string): Option<int> {
    ParseSigned(Strip(value), ParseNat)
  }

  lemma ParseSignedPrinted(n: int, unsigned: string, parse: string -> Option<nat>)
    requires unsigned != "" && IsDigit(unsigned[0]) && parse(unsigned) == Some(Magnitude(n))
    ensures ParseSigned(Signed(n, unsigned), parse) == Some(n)
  {
    if n < 0 {
      assert ("-" + unsigned)[1..] == unsigned;
    }
  }

  lemma DigitsAreInk(c: char)
    requires IsDigit(c) || c == '-'
    ensures !IsSpace(c)
  {
  }

  lemma SignedIsStripped(n: int, unsigned: string)
    requires unsigned != "" && IsDigit(unsigned[0]) && IsDigit(unsigned[|unsigned| - 1])
    ensures Strip(Signed(n, unsigned)) == Signed(n, unsigned)
  {
    var s := Signed(n, unsigned);
    DigitsAreInk(s[0]);
    assert s[|s| - 1] == unsigned[|unsigned| - 1];
    DigitsAreInk(s[|s| - 1]);
    StripFixed(s);
  }

  /** Reading a printed integer gives it back. */
  lemma IntRoundTrip(n: int)
    ensures ToInt(PrintInt(n)) == Some(n)
    ensures PrintInt(n) != ""
  {
    var unsigned := PrintNat(Magnitude(n));
    assert unsigned[0] in unsigned && unsigned[|unsigned| - 1] in unsigned;
    ParsePrinted(Magnitude(n));
    ParseSignedPrinted(n, unsigned, ParseNat);
    SignedIsStripped(n, unsigned);
  }

  lemma {:induction false} PrintNatIsPlain(n: nat)
    ensures |PrintNat(n)| == 1 <==> n < 10
    ensures n > 0 ==> PrintNat(n)[0] != '0'
  {
    if n >= 10 {
      PrintNatIsPlain(n / 10);
      assert PrintNat(n)[0] == PrintNat(n / 10)[0];
    }
  }

  /** Integers are printed as Python prints them: a minus sign exactly for the negative ones, and no leading
      zero but in zero itself. */
  lemma PrintIntIsPlain(n: int)
    ensures PrintInt(n)[..1] == "-" <==> n < 0
    ensures n > 0 ==> PrintInt(n)[0] != '0'
    ensures n < 0 ==> |PrintInt(n)| > 1 && PrintInt(n)[1] != '0'
    ensures PrintInt(0) == "0"
  {
    var m := Magnitude(n);
    PrintNatIsPlain(m);
    assert PrintNat(m)[0] in PrintNat(m);
    assert PrintInt(n) == if n < 0 then "-" + PrintNat(m) else PrintNat(m);
  }

  // ----- times, in whole microseconds ------------------------------------------------------------------

  function PrintFixed(micros: nat): string {
    PrintNat(micros / MICROS) + "." + PrintPadded(micros % MICROS, 6)
  }

  function PrintMicros(t: int): string {
    Signed(t, PrintFixed(Magnitude(t)))
  }

  function ParseFixed(s: string): Option<nat> {
    if |s| < 8 || s[|s| - 7] != '.' then None
    else match ParseNat(s[..|s| - 7])
      case None => None
      case Some(whole) =>
        match ParseNat(s[|s| - 6..])
        case None => None
        case Some(fraction) => Some(whole * MICROS + fraction)
  }

  /** `_to_float`, for the numerals that the store writes. */
  function ToMicros(value: string): Option<int> {
    ParseSigned(Strip(value), ParseFixed)
  }

  lemma FixedParts(whole: string, fraction: string)
    requires |fraction| == 6
    ensures var s := whole + "." + fraction;
      s[|s| - 7] == '.' && s[..|s| - 7] == whole && s[|s| - 6..] == fraction
  {
  }

  lemma SixDigits()
    ensures Power10(6) == MICROS
  {
    assert Power10(2) == 100 && Power10(4) == 10_000;
  }

  lemma FixedRoundTrip(micros: nat)
    ensures ParseFixed(PrintFixed(micros)) == Some(micros)
  {
    var whole, fraction := PrintNat(micros / MICROS), PrintPadded(micros % MICROS, 6);
    ParsePrinted(micros / MICROS);
    SixDigits();
    ParsePadded(micros % MICROS, 6);
    FixedParts(whole, fraction);
  }

  lemma FixedEnds(micros: nat)
    ensures var s := PrintFixed(micros); s != "" && IsDigit(s[0]) && IsDigit(s[|s| - 1])
  {
    var whole, fraction := PrintNat(micros / MICROS), PrintPadded(micros % MICROS, 6);
    var s := PrintFixed(micros);
    assert s[0] == whole[0] && whole[0] in whole;
    assert s[|s| - 1] == fraction[5] && fraction[5] in fraction;
  }

  /** Reading a printed time gives it back. */
  lemma MicrosRoundTrip(t: int)
    ensures ToMicros(PrintMicros(t)) == Some(t)
    ensures PrintMicros(t) != ""
  {
    var unsigned := PrintFixed(Magnitude(t));
    FixedEnds(Magnitude(t));
    FixedRoundTrip(Magnitude(t));
    ParseSignedPrinted(t, unsigned, ParseFixed);
    SignedIsStripped(t, unsigned);
  }

  /** How numbers are printed into a hash and read back from it. */
  datatype Numbers = Numbers(
    printInt: int -> string,
    printMicros: int -> string,
    toInt: string -> Option<int>,
    toMicros: string -> Option<int>)

  const PYTHON: Numbers := Numbers(PrintInt, PrintMicros, ToInt, ToMicros)

  ghost predicate Reversible(n: Numbers) {
    && (forall i :: n.toInt(n.printInt(i)) == Some(i))
    && (forall t :: n.toMicros(n.printMicros(t)) == Some(t))
    && n.toInt("") == None && n.toMicros("") == None
  }

  lemma PythonIsReversible()
    ensures Reversible(PYTHON)
  {
    forall i ensures PYTHON.toInt(PYTHON.printInt(i)) == Some(i) {
      IntRoundTrip(i);
    }
    forall t ensures PYTHON.toMicros(PYTHON.printMicros(t)) == Some(t) {
      MicrosRoundTrip(t);
    }
    EmptyIsNone();
  }

  lemma EmptyIsNone()
    ensures ToInt("") == None && ToMicros("") == None
  {
    StripFixed("");
  }
}
