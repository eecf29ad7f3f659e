/** The "%g" formatter of control/Src/config_json.c in exact arithmetic, and what the
    scanner reads back from it. */
module JsonFormat {
  import opened Words
  import opened JsonNumber

  // ---- powers of ten over the reals ------------------------------------------------------

  function Up(x: real, n: nat): real { if n == 0 then x else 10.0 * Up(x, n - 1) }

  function Down(x: real, n: nat): real { if n == 0 then x else Down(x, n - 1) / 10.0 }

  /** x * 10^k */
  function Scaled(x: real, k: int): real { if k >= 0 then Up(x, k) else Down(x, -k) }

  lemma ScaledNext(x: real, k: int)
    ensures Scaled(x, k + 1) == 10.0 * Scaled(x, k)
  {
    if k < 0 { assert Down(x, -k) == Down(x, -k - 1) / 10.0; }
  }

  lemma {:induction false} ScaledUp(x: real, k: int, n: nat)
    ensures Scaled(x, k + n) == Up(Scaled(x, k), n)
  {
    if n > 0 {
      ScaledUp(x, k, n - 1);
      ScaledNext(x, k + n - 1);
    }
  }

  lemma {:induction false} UpMono(x: real, y: real, n: nat)
    requires x <= y
    ensures Up(x, n) <= Up(y, n) && (x < y ==> Up(x, n) < Up(y, n))
  {
    if n > 0 { UpMono(x, y, n - 1); }
  }

  lemma {:induction false} UpOfOne(n: nat)
    ensures Up(1.0, n) == Pow10(n) as real && Up(10.0, n) == Pow10(n + 1) as real
  {
    if n > 0 {
      UpOfOne(n - 1);
      assert Pow10(n + 1) == 10 * Pow10(n);
    }
  }

  lemma {:induction false} UpGrows(x: real, n: nat)
    requires x > 0.0
    ensures Up(x, n) >= x && (n > 0 ==> Up(x, n) >= 10.0 * x)
  {
    if n > 0 { UpGrows(x, n - 1); }
  }

  lemma Up22(x: real)
    ensures Up(x, 22) == 1e22 * x
  {
    hide Up;
    UpTwo(x, 0);
    forall n: nat ensures Up(x, n + 2) == 100.0 * Up(x, n) { UpTwo(x, n); }
    assert Up(x, 2 + 2) == 100.0 * Up(x, 2);
    assert Up(x, 4 + 2) == 1e6 * x && Up(x, 6 + 2) == 1e8 * x;
    assert Up(x, 8 + 2) == 1e10 * x && Up(x, 10 + 2) == 1e12 * x;
    assert Up(x, 12 + 2) == 1e14 * x && Up(x, 14 + 2) == 1e16 * x;
    assert Up(x, 16 + 2) == 1e18 * x && Up(x, 18 + 2) == 1e20 * x && Up(x, 20 + 2) == 1e22 * x;
  }

  lemma UpTwo(x: real, n: nat)
    ensures Up(x, n + 2) == 100.0 * Up(x, n) && Up(x, 0) == x
  {}

  lemma Scaled22(x: real, k: int)
    ensures Scaled(x, k + 22) == 1e22 * Scaled(x, k)
  {
    ScaledUp(x, k, 22);
    Up22(Scaled(x, k));
  }

  // ---- the mantissa ------------------------------------------------------------------------

  /** `e` is the decimal exponent of `a`: 1 <= a / 10^e < 10. */
  ghost predicate HasExponent(a: real, e: int) { 1.0 <= Scaled(a, -e) < 10.0 }

  function RoundU32(x: real): u32
  {
    if x <= 0.0 then 0 else if x >= 4e9 then 0xFFFF_FFFF else (x + 0.5).Floor
  }

  /** Mantissa and exponent from an estimate of the exponent, with the two adjustments. */
  function Mantissa(a: real, est: int, sig: nat): (r: (nat, int))
    requires 1 <= sig <= 9
  {
    var pmax, pmin := Pow10(sig), Pow10(sig - 1);
    var m := RoundU32(Scaled(a, sig - 1 - est));
    var e := if m >= pmax then est + 1 else if m < pmin then est - 1 else est;
    var again := RoundU32(Scaled(a, sig - 1 - e));
    if again >= pmax then (pmin, e + 1) else (again, e)
  }

  lemma SigDigits(sig: nat)
    requires 1 <= sig <= 9
    ensures Pow10(sig) == 10 * Pow10(sig - 1) && Pow10(sig) <= 1_000_000_000
  {
    Pow10Mono(sig, 9);
    assert Pow10(3) == 1000;
    Pow10Sum(3, 3);
    Pow10Sum(6, 3);
  }

  /** With its exponent taken out, a number has `sig` digits before the point. */
  lemma ScaledToDigits(a: real, e: int, sig: nat)
    requires HasExponent(a, e) && 1 <= sig
    ensures Pow10(sig - 1) as real <= Scaled(a, sig - 1 - e) < Pow10(sig) as real
  {
    ScaledUp(a, -e, sig - 1);
    UpMono(1.0, Scaled(a, -e), sig - 1);
    UpMono(Scaled(a, -e), 10.0, sig - 1);
    UpOfOne(sig - 1);
  }

  ghost predicate HalfUnit(m: nat, x: real) { x - 0.5 <= m as real <= x + 0.5 }

  /** Whatever the estimate, as long as it is off by at most one, the mantissa has
      exactly `sig` digits and is within half a unit of its last one. */
  lemma MantissaRounds(a: real, exponent: int, est: int, sig: nat)
    requires HasExponent(a, exponent) && 1 <= sig <= 9 && exponent - 1 <= est <= exponent + 1
    ensures var (m, e) := Mantissa(a, est, sig);
            && Pow10(sig - 1) <= m < Pow10(sig) && HalfUnit(m, Scaled(a, sig - 1 - e))
            && exponent <= e <= exponent + 1
  {
    hide Scaled, Pow10;
    SigDigits(sig);
    ScaledToDigits(a, exponent, sig);
    ScaledNext(a, sig - 1 - exponent);
    ScaledNext(a, sig - 2 - exponent);
  }

  // ---- the digits ----------------------------------------------------------------------------

  function DigitsOf(m: nat, n: nat): (s: string)
    ensures |s| == n && AllDigits(s)
  {
    if n == 0 then "" else DigitsOf(m / 10, n - 1) + [Chr(m % 10)]
  }

  lemma {:induction false} DigitsDenote(m: nat, n: nat)
    requires m < Pow10(n)
    ensures D(DigitsOf(m, n)) == m
  {
    if n > 0 {
      DigitsDenote(m / 10, n - 1);
      DLast(DigitsOf(m, n));
      assert DigitsOf(m, n)[..n - 1] == DigitsOf(m / 10, n - 1);
    }
  }

  lemma {:induction false} FirstDigit(m: nat, n: nat)
    requires n > 0 && m >= Pow10(n - 1)
    ensures DigitsOf(m, n)[0] != '0' || m >= Pow10(n)
  {
    if n > 1 { FirstDigit(m / 10, n - 1); }
  }

  /** "%g" strips trailing zeros, but leaves one digit. */
  function Strip(d: string): (r: string)
    requires d != ""
    ensures r != "" && r <= d
  {
    if |d| > 1 && d[|d| - 1] == '0' then Strip(d[..|d| - 1]) else d
  }

  lemma {:induction false} StripDenotes(d: string)
    requires Digits(d)
    ensures AllDigits(Strip(d)) && D(d) == D(Strip(d)) * Pow10(|d| - |Strip(d)|)
  {
    if |d| > 1 && d[|d| - 1] == '0' {
      StripDenotes(d[..|d| - 1]);
      DLast(d);
      TenTimes(D(Strip(d)), |d| - 1 - |Strip(d)|);
    }
  }

  // ---- the text ------------------------------------------------------------------------------

  /** The exponent part: at least two digits. */
  function ExpDigits(x: nat): (s: string)
    requires x < 1000
    ensures AllDigits(s) && 2 <= |s| <= 3
  {
    (if x >= 100 then [Chr(x / 100)] else "") + [Chr(x % 100 / 10), Chr(x % 10)]
  }

  function Abs(e: int): nat { if e < 0 then -e else e }

  function ExpForm(neg: bool, d: string, e: int): Numeral
    requires d != "" && Abs(e) < 1000
  {
    Numeral(neg, d[..1], d[1..], Exp('e', if e < 0 then "-" else "+", ExpDigits(Abs(e))))
  }

  function FixedForm(neg: bool, d: string, e: nat): Numeral
  {
    if |d| > e + 1 then Numeral(neg, d[..e + 1], d[e + 1..], NoExp)
    else Numeral(neg, d + Zeros(e + 1 - |d|), "", NoExp)
  }

  function SmallForm(neg: bool, d: string, e: int): Numeral
    requires e < 0
  {
    Numeral(neg, "0", Zeros(-e - 1) + d, NoExp)
  }

  /** The number written for a mantissa of `sig` digits and its exponent: exponent form,
      fixed form, or 0.000ddd form. */
  function Layout(neg: bool, m: nat, e: int, sig: nat): Numeral
    requires 1 <= sig <= 9 && Abs(e) < 1000
  {
    var d := Strip(DigitsOf(m, sig));
    if e < -4 || e >= sig then ExpForm(neg, d, e)
    else if e >= 0 then FixedForm(neg, d, e)
    else SmallForm(neg, d, e)
  }

  lemma ExpDigitsDenote(x: nat)
    requires x < 1000
    ensures D(ExpDigits(x)) == x
  {
    var s := ExpDigits(x);
    var last := x % 10;
    TwoDigits(x % 100 / 10, last);
    if x >= 100 {
      assert s[..2] == [Chr(x / 100), Chr(x % 100 / 10)];
      TwoDigits(x / 100, x % 100 / 10);
      DLast(s);
    }
  }

  lemma TwoDigits(a: nat, b: nat)
    requires a < 10 && b < 10
    ensures D([Chr(a), Chr(b)]) == 10 * a + b
  {
    DLast([Chr(a), Chr(b)]);
    DLast([Chr(a)]);
    assert [Chr(a), Chr(b)][..1] == [Chr(a)] && [Chr(a)][..0] == "" && D("") == 0;
  }

  /** The digits before the strip, in the stripped ones. */
  lemma StrippedMantissa(m: nat, sig: nat)
    requires 1 <= sig <= 9 && Pow10(sig - 1) <= m < Pow10(sig)
    ensures var d := Strip(DigitsOf(m, sig));
            Digits(d) && |d| <= sig && d[0] != '0' && m == D(d) * Pow10(sig - |d|)
  {
    DigitsDenote(m, sig);
    FirstDigit(m, sig);
    StripDenotes(DigitsOf(m, sig));
  }

  /** `d` are the digits of a mantissa of `sig` digits, less trailing zeros. */
  ghost predicate Stripped(d: string, m: nat, sig: nat)
  {
    Digits(d) && |d| <= sig <= 9 && d[0] != '0' && m == D(d) * Pow10(sig - |d|)
  }

  ghost predicate Denotes(n: Numeral, m: nat, e: int, sig: nat)
  {
    Legal(n) && SameValue(Exact(n), Decimal(m, e - sig + 1)) && |n.whole + n.frac| <= 13
  }

  lemma ExpFormDenotes(neg: bool, d: string, m: nat, e: int, sig: nat)
    requires Stripped(d, m, sig) && Abs(e) < 1000
    ensures Denotes(ExpForm(neg, d, e), m, e, sig)
  {
    assert Pow10(0) == 1;
    hide D, Pow10, ExpDigits;
    assert d[..1] + d[1..] == d;
    ExpDigitsDenote(Abs(e));
  }

  lemma FixedFormDenotes(neg: bool, d: string, m: nat, e: nat, sig: nat)
    requires Stripped(d, m, sig) && e < sig
    ensures Denotes(FixedForm(neg, d, e), m, e, sig)
  {
    assert Pow10(0) == 1;
    hide D, Pow10;
    if |d| > e + 1 {
      assert d[..e + 1] + d[e + 1..] == d;
    } else {
      var z := Zeros(e + 1 - |d|);
      DAppend(d, z);
      DOfZeros(z);
      Pow10Sum(|z|, sig - e - 1);
      Associate(D(d), Pow10(|z|), Pow10(sig - e - 1));
      assert d + z + "" == d + z;
    }
  }

  lemma Associate(x: nat, y: nat, z: nat)
    ensures x * y * z == x * (y * z)
  {}

  lemma SmallFormDenotes(neg: bool, d: string, m: nat, e: int, sig: nat)
    requires Stripped(d, m, sig) && -4 <= e < 0
    ensures Denotes(SmallForm(neg, d, e), m, e, sig)
  {
    assert Pow10(0) == 1;
    hide D, Pow10;
    var z := "0" + Zeros(-e - 1);
    assert "0" + (Zeros(-e - 1) + d) == z + d;
    DOfZeros(z);
    DAppend(z, d);
  }

  /** What is written is a number of the grammar and denotes the rounded mantissa. */
  lemma LayoutDenotes(neg: bool, m: nat, e: int, sig: nat)
    requires 1 <= sig <= 9 && Abs(e) < 1000 && Pow10(sig - 1) <= m < Pow10(sig)
    ensures Denotes(Layout(neg, m, e, sig), m, e, sig)
  {
    hide Denotes, ExpForm, FixedForm, SmallForm, D, Pow10, Strip, DigitsOf;
    var d := Strip(DigitsOf(m, sig));
    StrippedMantissa(m, sig);
    if e < -4 || e >= sig {
      ExpFormDenotes(neg, d, m, e, sig);
    } else if e >= 0 {
      FixedFormDenotes(neg, d, m, e, sig);
    } else {
      SmallFormDenotes(neg, d, m, e, sig);
    }
  }

  predicate NoZeroAtEnd(d: string) { d == "" || d[|d| - 1] != '0' }

  predicate Trimmed(d: string) { |d| == 1 || (d != "" && d[|d| - 1] != '0') }

  lemma ExpShape(neg: bool, d: string, e: int)
    requires Trimmed(d) && Abs(e) < 1000 && d[0] != '0'
    ensures var n := ExpForm(neg, d, e);
            && n.neg == neg && NoZeroAtEnd(n.frac) && |n.whole| == 1 && n.whole != "0"
            && n.exp.Exp? && n.exp.mark == 'e' && n.exp.sign == (if e < 0 then "-" else "+")
            && |n.exp.digits| == if Abs(e) < 100 then 2 else 3
  {
    assert d[..1][0] == d[0] && "0"[0] == '0';
  }

  lemma FixedShape(neg: bool, d: string, e: nat)
    requires Trimmed(d)
    ensures var n := FixedForm(neg, d, e);
            n.neg == neg && NoZeroAtEnd(n.frac) && |n.whole| == e + 1 && n.exp.NoExp?
  {}

  lemma SmallShape(neg: bool, d: string, e: int)
    requires Trimmed(d) && d[0] != '0' && e < 0
    ensures var n := SmallForm(neg, d, e);
            n.neg == neg && NoZeroAtEnd(n.frac) && n.whole == "0" && n.exp.NoExp?
  {
    var f := Zeros(-e - 1) + d;
    assert f[|f| - 1] == d[|d| - 1] != '0';
  }

  /** The shape of printf's %g: an exponent of two or three digits only for numbers below 10^-4 or of
      more digits than were asked for, and no zeros at the end of a fraction. */
  lemma LayoutShape(neg: bool, m: nat, e: int, sig: nat)
    requires 1 <= sig <= 9 && Abs(e) < 1000 && Pow10(sig - 1) <= m < Pow10(sig)
    ensures var n := Layout(neg, m, e, sig);
            && n.neg == neg && NoZeroAtEnd(n.frac)
            && (if e < -4 || e >= sig then
                  && n.exp.Exp? && n.exp.mark == 'e' && n.exp.sign == (if e < 0 then "-" else "+")
                  && |n.exp.digits| == (if Abs(e) < 100 then 2 else 3) && |n.whole| == 1 && n.whole != "0"
                else n.exp.NoExp? && if e < 0 then n.whole == "0" else |n.whole| == e + 1)
  {
    StrippedMantissa(m, sig);
    StripStrips(DigitsOf(m, sig));
    hide D, Pow10, Strip, DigitsOf, Digits, ExpForm, FixedForm, SmallForm, Trimmed, NoZeroAtEnd;
    var d := Strip(DigitsOf(m, sig));
    if e < -4 || e >= sig { ExpShape(neg, d, e); } else if e < 0 { SmallShape(neg, d, e); } else { FixedShape(neg, d, e); }
  }

  lemma {:induction false} StripStrips(d: string)
    requires d != ""
    ensures Trimmed(Strip(d))
  {
    if |d| > 1 && d[|d| - 1] == '0' { StripStrips(d[..|d| - 1]); }
  }

  // ---- the round trip --------------------------------------------------------------------------

  const LOWEST: int := -324
  const HIGHEST: int := 309

  /** The range of the finite nonzero doubles, with room on both sides. */
  ghost predicate InRange(a: real) { Scaled(1.0, LOWEST) <= a < Scaled(1.0, HIGHEST) }

  /** Outside these exponents there is no double. */
  lemma ExponentInRange(a: real, e: int)
    requires InRange(a)
    ensures Scaled(a, -e) < 10.0 ==> e >= LOWEST - 1
    ensures Scaled(a, -e) < 1.0 ==> e > LOWEST
    ensures Scaled(a, -e) >= 1.0 ==> e < HIGHEST
  {
    if e <= LOWEST {
      ScaledMono(Scaled(1.0, LOWEST), a, -e);
      ScaledBack(1.0, LOWEST);
      ScaledUp(Scaled(1.0, LOWEST), -LOWEST, LOWEST - e);
      UpGrows(1.0, LOWEST - e);
    }
    if e >= HIGHEST {
      ScaledMono(a, Scaled(1.0, HIGHEST), -e);
      ScaledUp(Scaled(1.0, HIGHEST), -e, e - HIGHEST);
      ScaledBack(1.0, HIGHEST);
      if e > HIGHEST { UpGrowsFrom(Scaled(Scaled(1.0, HIGHEST), -e), e - HIGHEST); }
    }
  }

  lemma {:induction false} ScaledPositive(x: real, k: int)
    requires x > 0.0
    ensures Scaled(x, k) > 0.0
    decreases Abs(k)
  {
    if k > 0 {
      ScaledPositive(x, k - 1);
      ScaledNext(x, k - 1);
    } else if k < 0 {
      ScaledPositive(x, k + 1);
      ScaledNext(x, k);
    }
  }

  lemma UpGrowsFrom(x: real, n: nat)
    requires Up(x, n) == 1.0
    ensures x <= 1.0
  {
    if x > 1.0 { UpGrows(x, n); }
  }

  lemma {:induction false} ScaledMono(x: real, y: real, k: int)
    requires x <= y
    ensures Scaled(x, k) <= Scaled(y, k) && (x < y ==> Scaled(x, k) < Scaled(y, k))
    decreases Abs(k)
  {
    if k > 0 {
      ScaledMono(x, y, k - 1);
    } else if k < 0 {
      ScaledMono(x, y, k + 1);
      ScaledNext(x, k);
      ScaledNext(y, k);
    }
  }

  lemma {:induction false} ScaledShift(x: real, k: int)
    ensures Scaled(10.0 * x, k) == 10.0 * Scaled(x, k)
    decreases Abs(k)
  {
    if k > 0 {
      ScaledShift(x, k - 1);
    } else if k < 0 {
      ScaledShift(x, k + 1);
      ScaledNext(x, k);
      ScaledNext(10.0 * x, k);
    }
  }

  lemma {:induction false} ScaledBack(x: real, k: int)
    ensures Scaled(Scaled(x, k), -k) == x
    decreases Abs(k)
  {
    if k > 0 {
      ScaledBack(x, k - 1);
      ScaledNext(x, k - 1);
      ScaledShift(Scaled(x, k - 1), -k);
      ScaledNext(Scaled(x, k - 1), -k);
    } else if k < 0 {
      ScaledBack(x, k + 1);
      ScaledNext(x, k);
      ScaledShift(Scaled(x, k), -k - 1);
      ScaledNext(Scaled(x, k), -k - 1);
    }
  }

  function Clamped(sig: int): (r: nat)
    ensures 1 <= r <= 9
  {
    if sig < 1 then 1 else if sig > 9 then 9 else sig
  }

  /** The text for a positive magnitude, from an exponent estimate. */
  function FormatText(neg: bool, a: real, est: int, sig: nat): string
    requires 1 <= sig <= 9 && Abs(Mantissa(a, est, sig).1) < 1000
  {
    NumText(Layout(neg, Mantissa(a, est, sig).0, Mantissa(a, est, sig).1, sig))
  }

  /** Formatting then scanning: the text is a number, it is consumed whole, and what is
      read denotes the value rounded to `sig` digits, within half a unit of the last
      digit. The estimate of the exponent may be off by one. */
  lemma FormatReadsBack(neg: bool, a: real, exponent: int, est: int, sig: nat)
    requires InRange(a) && HasExponent(a, exponent) && exponent - 1 <= est <= exponent + 1 && 1 <= sig <= 9
    ensures Abs(Mantissa(a, est, sig).1) < 1000
    ensures var ((m, e), text) := (Mantissa(a, est, sig), FormatText(neg, a, est, sig));
            && Pow10(sig - 1) <= m < Pow10(sig) && HalfUnit(m, Scaled(a, sig - 1 - e))
            && Scan(text).Number? && Scan(text).consumed == |text| && Scan(text).neg == neg
            && Scan(text).mag.Finite? && SameValue(Scan(text).mag.d, Decimal(m, e - sig + 1))
    ensures |FormatText(neg, a, est, sig)| <= 16
  {
    hide Mantissa, Layout, NumText, Pow10, HalfUnit, Scaled, Scan, Denotes, InRange, SameValue, Exact;
    assert HasExponent(a, exponent);
    ExponentInRange(a, exponent);
    MantissaRounds(a, exponent, est, sig);
    var (m, e) := Mantissa(a, est, sig);
    LayoutDenotes(neg, m, e, sig);
    ReadsBack(Layout(neg, m, e, sig), neg, m, e, sig);
    LayoutIsShort(neg, m, e, sig);
  }

  lemma SameValueNonZero(a: Decimal, b: Decimal)
    requires SameValue(a, b) && b.m > 0
    ensures a.m > 0
  {
    if a.m == 0 && a.e <= b.e { MulLe(1, b.m, Pow10(b.e - a.e)); }
  }

  lemma ReadsBack(n: Numeral, neg: bool, m: nat, e: int, sig: nat)
    requires 1 <= sig <= 9 && LOWEST <= e + 1 <= HIGHEST + 1 && m > 0
    requires n == Layout(neg, m, e, sig) && Denotes(n, m, e, sig)
    ensures Scan(NumText(n)) == Number(|NumText(n)|, neg, Finite(Exact(n)))
    ensures SameValue(Exact(n), Decimal(m, e - sig + 1))
  {
    hide NumText, Layout, Scan, Split1, D, Pow10;
    ScanAcceptsNumbers(NumText(n), n);
    KeptIsCut(n);
    LayoutExponent(neg, m, e, sig);
    ScannedExpExact(n);
    SameValueNonZero(Exact(n), Decimal(m, e - sig + 1));
    assert Kept(n) == Exact(n);
  }

  lemma LayoutExponent(neg: bool, m: nat, e: int, sig: nat)
    requires 1 <= sig <= 9 && LOWEST <= e + 1 <= HIGHEST + 1 && Legal(Layout(neg, m, e, sig))
    requires |Layout(neg, m, e, sig).whole + Layout(neg, m, e, sig).frac| <= 13
    ensures var n := Layout(neg, m, e, sig);
            n.neg == neg && -400 <= Exact(n).e <= 400 && -100000 < ScannedExp(n.exp) < 100000
  {
    var n := Layout(neg, m, e, sig);
    if n.exp.Exp? {
      ExpDigitsDenote(Abs(e));
      SaturatedIs(n.exp.digits);
    }
  }

  lemma LayoutIsShort(neg: bool, m: nat, e: int, sig: nat)
    requires 1 <= sig <= 9 && Abs(e) < 1000
    ensures |NumText(Layout(neg, m, e, sig))| <= 16
  {
    var d := Strip(DigitsOf(m, sig));
    assert 1 <= |d| <= sig;
    hide Strip, DigitsOf, ExpDigits;
    if e < -4 || e >= sig { ExpIsShort(neg, d, e); } else if e >= 0 { FixedIsShort(neg, d, e); } else { SmallIsShort(neg, d, e); }
  }

  lemma ExpIsShort(neg: bool, d: string, e: int)
    requires 1 <= |d| <= 9 && Abs(e) < 1000
    ensures |NumText(ExpForm(neg, d, e))| <= 16
  {}

  lemma FixedIsShort(neg: bool, d: string, e: nat)
    requires 1 <= |d| <= 9 && e < 9
    ensures |NumText(FixedForm(neg, d, e))| <= 16
  {}

  lemma SmallIsShort(neg: bool, d: string, e: int)
    requires 1 <= |d| <= 9 && -4 <= e < 0
    ensures |NumText(SmallForm(neg, d, e))| <= 16
  {}

  // ---- the formatter's loops -------------------------------------------------------------------

  /** The doubles the formatter sees; zero keeps its sign. */
  datatype Double = NotFinite | Real(neg: bool, mag: real)

  /** The decimal exponent, by repeated scaling. */
  method EstimateExponent(a: real) returns (e10: int)
    requires InRange(a)
    ensures HasExponent(a, e10)
  {
    hide InRange, Scaled;
    e10 := 0;
    var t := a;
    assert t == Scaled(a, 0) by { ScaledZero(a); }
    while t >= 1e22
      invariant t == Scaled(a, -e10)
      decreases t.Floor
    {
      Scaled22(a, -e10 - 22);
      t, e10 := t / 1e22, e10 + 22;
    }
    while t >= 10.0
      invariant t == Scaled(a, -e10)
      decreases t.Floor
    {
      ScaledNext(a, -e10 - 1);
      t, e10 := t / 10.0, e10 + 1;
    }
    while t < 1e-21
      invariant t == Scaled(a, -e10) && t < 10.0
      decreases e10 - LOWEST
    {
      Scaled22(a, -e10);
      ExponentInRange(a, e10);
      t, e10 := t * 1e22, e10 - 22;
    }
    while t < 1.0
      invariant t == Scaled(a, -e10) && t < 10.0
      decreases e10 - LOWEST
    {
      ScaledNext(a, -e10);
      ExponentInRange(a, e10);
      t, e10 := t * 10.0, e10 - 1;
    }
  }

  lemma ScaledZero(a: real)
    ensures Scaled(a, 0) == a
  {}

  /** v * 10^n, in exact steps of at most 22. */
  method ScalePow10(v: real, n: int) returns (r: real)
    ensures r == Scaled(v, n)
  {
    hide Scaled;
    r := v;
    var k := n;
    ScaledZero(v);
    while k >= 22
      invariant r == Scaled(v, n - k) && (n >= 0 ==> k >= 0) && (n < 0 ==> k == n)
    {
      Scaled22(v, n - k);
      r, k := r * 1e22, k - 22;
    }
    while k <= -22
      invariant r == Scaled(v, n - k) && (n >= 0 ==> 0 <= k < 22) && (n < 0 ==> n <= k <= 0)
      decreases -k
    {
      Scaled22(v, n - k - 22);
      r, k := r / 1e22, k + 22;
    }
    while k > 0
      invariant r == Scaled(v, n - k) && (n < 0 ==> n <= k <= 0)
    {
      ScaledNext(v, n - k);
      r, k := r * 10.0, k - 1;
    }
    while k < 0
      invariant r == Scaled(v, n - k) && k <= 0
      decreases -k
    {
      ScaledNext(v, n - k - 1);
      r, k := r / 10.0, k + 1;
    }
  }

  method PickMantissa(a: real, est: int, sig: nat) returns (m: nat, e: int)
    requires 1 <= sig <= 9
    ensures (m, e) == Mantissa(a, est, sig)
  {
    hide Scaled, RoundU32;
    var pmax, pmin := Pow10(sig), Pow10(sig - 1);
    e := est;
    var x := ScalePow10(a, sig - 1 - e);
    m := RoundU32(x);
    if m >= pmax {
      e := e + 1;
      x := ScalePow10(a, sig - 1 - e);
      m := RoundU32(x);
    } else if m < pmin {
      e := e - 1;
      x := ScalePow10(a, sig - 1 - e);
      m := RoundU32(x);
    }
    if m >= pmax { m, e := pmin, e + 1; }
  }

  /** The mantissa's digits, last one first, then the trailing zeros dropped. */
  method PutDigits(mant: nat, sig: nat) returns (d: string)
    requires 1 <= sig
    ensures d == Strip(DigitsOf(mant, sig))
  {
    d := "";
    var m, i := mant, sig;
    while i > 0
      invariant 0 <= i <= sig && |d| == sig - i && DigitsOf(mant, sig) == DigitsOf(m, i) + d
    {
      d := [Chr(m % 10)] + d;
      m, i := m / 10, i - 1;
    }
    assert DigitsOf(mant, sig) == d;
    while |d| > 1 && d[|d| - 1] == '0'
      invariant |d| >= 1 && Strip(d) == Strip(DigitsOf(mant, sig))
      decreases |d|
    {
      d := d[..|d| - 1];
    }
  }

  method PutExponent(e10: int) returns (t: string)
    requires Abs(e10) < 1000
    ensures t == ExpText(Exp('e', if e10 < 0 then "-" else "+", ExpDigits(Abs(e10))))
  {
    t := "e";
    var ex := e10;
    if ex < 0 {
      t := t + "-";
      ex := -ex;
    } else {
      t := t + "+";
    }
    TwoLastDigits(ex);
    hide Chr;
    if ex >= 100 {
      t := t + [Chr(ex / 100)];
      ex := ex % 100;
    }
    t := t + [Chr(ex / 10), Chr(ex % 10)];
  }

  lemma TwoLastDigits(x: nat)
    requires x < 1000
    ensures x / 100 < 10 && x % 100 / 10 < 10 && x % 100 % 10 == x % 10 && (x < 100 ==> x % 100 == x)
  {}

  /** A number's text after its sign. */
  function Unsigned(n: Numeral): string { n.whole + FracText(n.frac) + ExpText(n.exp) }

  lemma SignFirst(n: Numeral)
    ensures NumText(n) == (if n.neg then "-" else "") + Unsigned(n)
  {
    hide FracText, ExpText;
  }

  method PutExpForm(neg: bool, d: string, e10: int) returns (t: string)
    requires d != "" && Abs(e10) < 1000
    ensures t == Unsigned(ExpForm(neg, d, e10))
  {
    hide ExpText, ExpDigits;
    t := [d[0]];
    if |d| > 1 { t := t + ("." + d[1..]); }
    assert t == d[..1] + FracText(d[1..]);
    var x := PutExponent(e10);
    t := t + x;
  }

  method PutFixed(neg: bool, d: string, e10: nat) returns (t: string)
    ensures t == Unsigned(FixedForm(neg, d, e10))
  {
    ghost var n := FixedForm(neg, d, e10);
    t := "";
    var i := 0;
    while i < e10 + 1
      invariant 0 <= i <= e10 + 1 && t == n.whole[..i]
    {
      t := t + [if i < |d| then d[i] else '0'];
      i := i + 1;
    }
    assert t == n.whole;
    if |d| > e10 + 1 { t := t + ("." + d[e10 + 1..]); }
  }

  method PutSmall(neg: bool, d: string, e10: int) returns (t: string)
    requires d != "" && e10 < 0
    ensures t == Unsigned(SmallForm(neg, d, e10))
  {
    var z := "";
    var i := 0;
    while i < -e10 - 1
      invariant 0 <= i <= -e10 - 1 && z == Zeros(i)
    {
      z := z + ['0'];
      i := i + 1;
    }
    t := "0" + ("." + (z + d));
  }

  method PutLayout(neg: bool, m: nat, e10: int, sig: nat) returns (t: string)
    requires 1 <= sig <= 9 && Abs(e10) < 1000
    ensures t == NumText(Layout(neg, m, e10, sig))
  {
    hide Strip, DigitsOf, ExpForm, FixedForm, SmallForm, Unsigned, NumText;
    var d := PutDigits(m, sig);
    if e10 < -4 || e10 >= sig {
      t := PutExpForm(neg, d, e10);
    } else if e10 >= 0 {
      t := PutFixed(neg, d, e10);
    } else {
      t := PutSmall(neg, d, e10);
    }
    SignFirst(Layout(neg, m, e10, sig));
    LayoutSign(neg, m, e10, sig);
    if neg { t := "-" + t; } else { t := "" + t; }
  }

  lemma LayoutSign(neg: bool, m: nat, e: int, sig: nat)
    requires 1 <= sig <= 9 && Abs(e) < 1000
    ensures Layout(neg, m, e, sig).neg == neg
  {}

  method FmtZero(cap: int, neg: bool) returns (r: Option<string>)
    ensures r == var t := if neg then "-0" else "0"; if cap < |t| + 1 then None else Some(t)
  {
    r := if cap < (if neg then 3 else 2) then None else Some(if neg then "-0" else "0");
  }

  /** cfg_json_fmt_g. Only a value that is not finite or a buffer that is too short stops
      it; otherwise the text is the one FormatReadsBack speaks of. */
  method FmtG(v: Double, sigArg: int, cap: int) returns (r: Option<string>, ghost est: int)
    requires v.Real? ==> v.mag == 0.0 || InRange(v.mag)
    ensures cap <= 1 || v.NotFinite? ==> r == None
    ensures cap > 1 && v.Real? && v.mag == 0.0 ==>
              r == var t := if v.neg then "-0" else "0"; if cap < |t| + 1 then None else Some(t)
    ensures cap > 1 && v.Real? && v.mag != 0.0 ==>
              && HasExponent(v.mag, est) && Abs(Mantissa(v.mag, est, Clamped(sigArg)).1) < 1000
              && var t := FormatText(v.neg, v.mag, est, Clamped(sigArg));
                 r == if |t| + 1 > cap then None else Some(t)
    ensures cap >= 17 && v.Real? ==> r.Some?
  {
    hide InRange, Mantissa, HasExponent, NumText, Layout, Scan, Pow10, HalfUnit, SameValue;
    r, est := None, 0;
    if cap <= 1 || v.NotFinite? { return; }
    var sig := Clamped(sigArg);
    if v.mag == 0.0 {
      r := FmtZero(cap, v.neg);
      return;
    }
    var e10 := EstimateExponent(v.mag);
    est := e10;
    FormatReadsBack(v.neg, v.mag, est, est, sig);
    var m: nat;
    m, e10 := PickMantissa(v.mag, e10, sig);
    var t := PutLayout(v.neg, m, e10, sig);
    if |t| + 1 > cap { return; }
    r := Some(t);
  }

  // ---- integers ----------------------------------------------------------------------------------

  function Size(v: nat): (n: nat) ensures n >= 1 { if v < 10 then 1 else 1 + Size(v / 10) }

  lemma {:induction false} SizeFits(v: nat)
    ensures v < Pow10(Size(v)) && (v > 0 ==> Pow10(Size(v) - 1) <= v)
  {
    if v >= 10 { SizeFits(v / 10); }
  }

  lemma {:induction false} SizeBound(v: nat, n: nat)
    requires v < Pow10(n) && n >= 1
    ensures Size(v) <= n
    decreases n
  {
    if v >= 10 {
      SizeBound(v / 10, n - 1);
    }
  }

  /** The token of cfg_json_w_int: the number itself, for every 64-bit long. */
  method IntToken(v: int) returns (t: string)
    requires -0x8000_0000_0000_0000 <= v < 0x8000_0000_0000_0000
    ensures Scan(t) == Number(|t|, v < 0, if v == 0 then Zero else Finite(Decimal(Abs(v), 0)))
    ensures t == IntegerText(v) && |t| <= 20
  {
    hide DigitsOf, Scan, Size;
    var d := PutInteger(if v < 0 then -v else v);
    t := (if v < 0 then "-" else "") + d;
    IntegerReads(v);
  }

  /** The digits of a number, last one first. */
  method PutInteger(v: u64) returns (d: string)
    requires v <= 0x8000_0000_0000_0000
    ensures d == DigitsOf(v, Size(v))
  {
    hide Pow10;
    ghost var n := Size(v);
    SizeBound(v, 19) by { Pow10Nineteen(); }
    var u := v;
    d := [Chr(u % 10)];
    assert DigitsOf(v, n) == DigitsOf(v / 10, n - 1) + d;
    u := u / 10;
    while u != 0 && |d| < 20
      invariant 1 <= |d| <= n && DigitsOf(v, n) == DigitsOf(u, n - |d|) + d
      invariant if |d| == n then u == 0 else Size(u) == n - |d| && u > 0
      decreases n - |d|
    {
      assert DigitsOf(u, n - |d|) == DigitsOf(u / 10, n - |d| - 1) + [Chr(u % 10)];
      d, u := [Chr(u % 10)] + d, u / 10;
    }
    assert DigitsOf(u, 0) == "";
  }

  /** The token of an integer. */
  function IntegerText(v: int): string { (if v < 0 then "-" else "") + DigitsOf(Abs(v), Size(Abs(v))) }

  function IntegerNumeral(v: int): Numeral { Numeral(v < 0, DigitsOf(Abs(v), Size(Abs(v))), "", NoExp) }

  lemma IntegerIsNumber(v: int)
    requires -0x8000_0000_0000_0000 <= v < 0x8000_0000_0000_0000
    ensures Legal(IntegerNumeral(v)) && NumText(IntegerNumeral(v)) == IntegerText(v) && |IntegerText(v)| <= 20
    ensures |IntegerNumeral(v).whole| <= KEPT && D(IntegerNumeral(v).whole) == Abs(v)
  {
    hide DigitsOf, Size, D, Pow10, NumText, Digits, Legal;
    IntegerDigits(Abs(v));
    WholeIsLegal(v < 0, DigitsOf(Abs(v), Size(Abs(v))));
    WholeText(IntegerNumeral(v));
  }

  lemma WholeIsLegal(neg: bool, d: string)
    requires Digits(d) && (d[0] == '0' ==> |d| == 1)
    ensures Legal(Numeral(neg, d, "", NoExp))
  {}

  lemma IntegerReads(v: int)
    requires -0x8000_0000_0000_0000 <= v < 0x8000_0000_0000_0000
    ensures var t := IntegerText(v);
            && Scan(t) == Number(|t|, v < 0, if v == 0 then Zero else Finite(Decimal(Abs(v), 0))) && |t| <= 20
            && exists n :: Legal(n) && NumText(n) == t
  {
    hide D, Scan, NumText, Legal, IntegerText;
    IntegerIsNumber(v);
    WholeReads(IntegerNumeral(v));
  }

  lemma WholeText(n: Numeral)
    requires n.frac == "" && n.exp == NoExp
    ensures NumText(n) == (if n.neg then "-" else "") + n.whole
  {}

  /** A number of up to nineteen digits with neither fraction nor exponent. */
  lemma WholeReads(n: Numeral)
    requires Legal(n) && n.frac == "" && n.exp == NoExp && |n.whole| <= KEPT
    ensures Scan(NumText(n)) == Number(|NumText(n)|, n.neg, Judge(Decimal(D(n.whole), 0)))
  {
    hide D, Pow10, Scan, NumText, Judge;
    assert n.whole + n.frac == n.whole;
    ScanAcceptsNumbers(NumText(n), n);
    KeptIsCut(n);
  }

  lemma IntegerDigits(a: nat)
    requires a <= 0x8000_0000_0000_0000
    ensures var d := DigitsOf(a, Size(a)); Digits(d) && |d| <= KEPT && D(d) == a && (d[0] == '0' ==> |d| == 1)
  {
    SizeFits(a);
    SizeBound(a, 19) by { Pow10Nineteen(); }
    DigitsDenote(a, Size(a));
    if a > 0 { FirstDigit(a, Size(a)); }
  }
}
