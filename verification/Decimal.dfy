/** Decimal text: the integer counters of INCR and the two-decimal numbers of the metrics cache. */
module Decimal {
  import opened Model

  function Digit(d: nat): char
    requires d < 10
  {
    ('0' as int + d) as char
  }

  function DigitValue(c: char): Option<nat> {
    if '0' <= c <= '9' then Some(c as int - '0' as int) else None
  }

  function PrintNat(n: nat): string {
    if n < 10 then [Digit(n)] else PrintNat(n / 10) + [Digit(n % 10)]
  }

  function ParseNat(s: string): Option<nat> {
    if s == [] then None
    else
      var d := DigitValue(s[|s| - 1]);
      if |s| == 1 || d.None? then d
      else
        var high := ParseNat(s[..|s| - 1]);
        if high.None? then None else Some(10 * high.value + d.value)
  }

  lemma {:induction false} NatRoundTrip(n: nat)
    ensures ParseNat(PrintNat(n)) == Some(n)
  {
    if n >= 10 {
      NatRoundTrip(n / 10);
      var s := PrintNat(n);
      assert s[..|s| - 1] == PrintNat(n / 10);
    }
  }

  lemma {:induction false} NatHasOnlyDigits(n: nat)
    ensures PrintNat(n) != [] && forall i :: 0 <= i < |PrintNat(n)| ==> '0' <= PrintNat(n)[i] <= '9'
  {
    if n >= 10 {
      NatHasOnlyDigits(n / 10);
    }
  }

  function PrintInt(n: int): string {
    if n < 0 then "-" + PrintNat(-n) else PrintNat(n)
  }

  function ParseInt(s: string): Option<int> {
    if s != [] && s[0] == '-' then
      var m := ParseNat(s[1..]);
      if m.None? then None else var v: int := m.value; Some(-v)
    else
      var m := ParseNat(s);
      if m.None? then None else Some(m.value)
  }

  lemma IntRoundTrip(n: int)
    ensures ParseInt(PrintInt(n)) == Some(n)
  {
    var m := if n < 0 then -n else n;
    NatRoundTrip(m);
    NatHasOnlyDigits(m);
    assert n < 0 ==> PrintInt(n)[1..] == PrintNat(m);
  }

  /** The nearest whole number of hundredths, a tie going to the even one. */
  function Hundredths(x: real): nat
    requires 0.0 <= x
  {
    var y := 100.0 * x;
    var low := y.Floor;
    var rest := y - low as real;
    if rest < 0.5 || (rest == 0.5 && low % 2 == 0) then low else low + 1
  }

  function Magnitude(x: real): real {
    if x < 0.0 then -x else x
  }

  /** The number two decimals stand for. */
  function Rounded(x: real): real {
    var h := Hundredths(Magnitude(x)) as real / 100.0;
    if x < 0.0 then -h else h
  }

  // Formatting with "%.2f".
  function PrintFixed(x: real): string {
    (if x < 0.0 then "-" else "") + PrintHundredths(Hundredths(Magnitude(x)))
  }

  function PrintHundredths(h: nat): string {
    PrintNat(h / 100) + "." + [Digit(h / 10 % 10), Digit(h % 10)]
  }

  function Pow10(n: nat): (p: nat)
    ensures 0 < p
  {
    if n == 0 then 1 else 10 * Pow10(n - 1)
  }

  // What has been read: the value of the digits, how many came after the dot, whether there was a dot, and a digit.
  datatype Scanned = Scanned(value: nat, places: nat, dotted: bool, digits: bool)

  function Next(before: Scanned, c: char): Option<Scanned> {
    var d := DigitValue(c);
    if c == '.' then if before.dotted then None else Some(before.(dotted := true))
    else if d.None? then None
    else Some(Scanned(10 * before.value + d.value, if before.dotted then before.places + 1 else before.places,
                      before.dotted, true))
  }

  function Scan(s: string): Option<Scanned> {
    if s == [] then Some(Scanned(0, 0, false, false)) else
    var before := Scan(s[..|s| - 1]);
    if before.None? then None else Next(before.value, s[|s| - 1])
  }

  function ParseUnsigned(s: string): Option<real> {
    var r := Scan(s);
    if r.None? || !r.value.digits then None else Some(r.value.value as real / Pow10(r.value.places) as real)
  }

  // Plain decimal numbers; exponents, hexadecimal and special values are not among the texts the cache writes.
  function ParseFloat(s: string): Option<real> {
    if s != [] && s[0] == '-' then
      var m := ParseUnsigned(s[1..]);
      if m.None? then None else Some(-m.value)
    else ParseUnsigned(if s != [] && s[0] == '+' then s[1..] else s)
  }

  lemma ScanGrows(s: string, c: char)
    requires Scan(s).Some?
    ensures Scan(s + [c]) == Next(Scan(s).value, c)
  {
    assert (s + [c])[..|s|] == s;
  }

  lemma {:induction false} ScanNat(n: nat)
    ensures Scan(PrintNat(n)) == Some(Scanned(n, 0, false, true))
  {
    if n < 10 {
      ScanGrows([], Digit(n));
      assert PrintNat(n) == [] + [Digit(n)];
    } else {
      ScanNat(n / 10);
      ScanGrows(PrintNat(n / 10), Digit(n % 10));
    }
  }

  lemma TensOf(h: nat)
    ensures h == 10 * (h / 10) + h % 10
  {
  }

  lemma TwiceTenth(h: nat)
    ensures h / 10 / 10 == h / 100
  {
  }

  lemma ScanDigit(s: string, before: Scanned, d: nat)
    requires Scan(s) == Some(before) && before.dotted && d < 10
    ensures Scan(s + [Digit(d)]) == Some(Scanned(10 * before.value + d, before.places + 1, true, true))
  {
    ScanGrows(s, Digit(d));
  }

  lemma ScanDecimals(whole: string, n: nat, a: nat, b: nat)
    requires Scan(whole) == Some(Scanned(n, 0, false, true)) && a < 10 && b < 10
    ensures Scan(whole + "." + [Digit(a), Digit(b)]) == Some(Scanned(10 * (10 * n + a) + b, 2, true, true))
  {
    ScanGrows(whole, '.');
    ScanDigit(whole + ['.'], Scanned(n, 0, true, true), a);
    ScanDigit(whole + ['.'] + [Digit(a)], Scanned(10 * n + a, 1, true, true), b);
    assert whole + "." + [Digit(a), Digit(b)] == whole + ['.'] + [Digit(a)] + [Digit(b)];
  }

  lemma DigitsOf(h: nat)
    ensures h == 10 * (10 * (h / 100) + h / 10 % 10) + h % 10
  {
    TwiceTenth(h);
    TensOf(h);
    TensOf(h / 10);
  }

  lemma HundredthsScan(h: nat)
    ensures Scan(PrintHundredths(h)) == Some(Scanned(h, 2, true, true))
  {
    var n, a, b := h / 100, h / 10 % 10, h % 10;
    DigitsOf(h);
    ScanNat(n);
    ScanDecimals(PrintNat(n), n, a, b);
  }

  lemma HundredthsStart(h: nat)
    ensures PrintHundredths(h) != [] && '0' <= PrintHundredths(h)[0] <= '9'
  {
    NatHasOnlyDigits(h / 100);
  }

  lemma HundredthsRoundTrip(h: nat)
    ensures ParseUnsigned(PrintHundredths(h)) == Some(h as real / 100.0)
  {
    HundredthsScan(h);
    ScannedValue(PrintHundredths(h), h);
  }

  lemma ScannedValue(s: string, h: nat)
    requires Scan(s) == Some(Scanned(h, 2, true, true))
    ensures ParseUnsigned(s) == Some(h as real / 100.0)
  {
    assert Pow10(2) == 10 * Pow10(1) == 100;
  }

  /** Printing with two decimals and parsing gives the rounded number. */
  lemma PrintedParses(x: real)
    ensures ParseFloat(PrintFixed(x)) == Some(Rounded(x))
  {
    var h := Hundredths(Magnitude(x));
    HundredthsRoundTrip(h);
    HundredthsStart(h);
    SignParses(PrintHundredths(h), h as real / 100.0);
  }

  lemma SignParses(s: string, x: real)
    requires s != [] && '0' <= s[0] <= '9' && ParseUnsigned(s) == Some(x)
    ensures ParseFloat("" + s) == Some(x) && ParseFloat("-" + s) == Some(0.0 - x)
  {
    var negated := "-" + s;
    assert "" + s == s;
    assert s[0] != '-' && s[0] != '+';
    assert negated[0] == '-' && negated[1..] == s;
  }

  lemma RoundedIsClose(x: real)
    ensures -0.005 <= Rounded(x) - x <= 0.005
  {
    var m := Magnitude(x);
    var y, h := 100.0 * m, Hundredths(m);
    assert y - 0.5 <= h as real <= y + 0.5;
  }

  /** Half way between two hundredths, the even one is taken; otherwise the nearer one. */
  lemma TiesGoToEven(x: real, n: nat)
    requires 0.0 <= x
    ensures 100.0 * x == n as real + 0.5 ==> Hundredths(x) == if n % 2 == 0 then n else n + 1
    ensures n as real - 0.5 < 100.0 * x < n as real + 0.5 ==> Hundredths(x) == n
  {
  }

  lemma RoundedIsStable(x: real)
    ensures Hundredths(Magnitude(Rounded(x))) == Hundredths(Magnitude(x))
    ensures Rounded(Rounded(x)) == Rounded(x)
  {
    var h := Hundredths(Magnitude(x));
    assert 100.0 * (h as real / 100.0) == h as real;
  }

  lemma RoundedIsMonotone(x: real, y: real)
    requires 0.0 <= x <= y
    ensures 0.0 <= Rounded(x) <= Rounded(y)
  {
    var a, b := 100.0 * x, 100.0 * y;
    assert a.Floor <= b.Floor;
  }
}
