/** cfg_json_w_f32 of control/Src/config_json.c: four digits where they are enough, nine where
    they are not, and why every finite float comes back from the text. Floats are bit
    patterns here; the decimals between them are exact. */
module ConfigFloats {
  import opened Words
  import opened JsonNumber
  import opened JsonFormat
  import opened JsonTree
  import opened ConfigDoc
  import opened JsonWriter
  import JsonGrammar
  import opened ConfigCodec
  import DocMembers
  import ConfigDocRound
  import ConfigMsg
  import ConfigWire

  const SIG_DEFAULT: nat := 4
  const SIG_EXACT: nat := 9
  const BUFFER: nat := 40

  // ---- binary32 ------------------------------------------------------------------------------------

  /** 2^k */
  function TwoUp(n: nat): real { if n == 0 then 1.0 else 2.0 * TwoUp(n - 1) }

  function TwoDown(n: nat): real { if n == 0 then 1.0 else TwoDown(n - 1) / 2.0 }

  function Two(k: int): real { if k >= 0 then TwoUp(k) else TwoDown(-k) }

  function Negative(b: u32): bool { b >= 0x8000_0000 }

  function Biased(b: u32): nat { b % 0x8000_0000 / 0x80_0000 }

  function Fraction(b: u32): nat { b % 0x80_0000 }

  predicate IsFinite(b: u32) { Biased(b) < 255 }

  predicate IsZero(b: u32) { b % 0x8000_0000 == 0 }

  function Significand(b: u32): (m: nat)
    ensures m < 0x100_0000
  {
    if Biased(b) == 0 then Fraction(b) else 0x80_0000 + Fraction(b)
  }

  function Binade(b: u32): int { if Biased(b) == 0 then -149 else Biased(b) - 150 }

  /** The magnitude of a finite float, and the distance to the next one. */
  function Mag(b: u32): real { Times(Significand(b) as real, Two(Binade(b))) }

  function Ulp(b: u32): real { Two(Binade(b)) }

  lemma {:induction false} TwoPositive(n: nat)
    ensures TwoUp(n) > 0.0 && TwoDown(n) > 0.0
  {
    if n > 0 { TwoPositive(n - 1); }
  }

  /** Powers of two lie within the powers of ten. */
  lemma {:induction false} TwoBetween(n: nat)
    ensures TwoUp(n) <= Up(1.0, n) && Down(1.0, n) <= TwoDown(n)
  {
    if n > 0 {
      TwoBetween(n - 1);
      TwoPositive(n - 1);
    }
  }

  lemma {:induction false} TwoSmall(n: nat)
    ensures TwoDown(n) <= 1.0 && TwoUp(n) >= 1.0
  {
    if n > 0 { TwoSmall(n - 1); }
  }

  // ---- the value of a decimal ----------------------------------------------------------------------

  function Value(d: Decimal): real { Scaled(d.m as real, d.e) }

  lemma {:induction false} ScaledByPow(m: nat, n: nat, e: int)
    ensures Scaled((m * Pow10(n)) as real, e) == Scaled(m as real, e + n)
    decreases n
  {
    if n > 0 {
      assert m * Pow10(n) == 10 * m * Pow10(n - 1);
      ScaledByPow(10 * m, n - 1, e);
      ScaledTen(m as real, e + n - 1);
    }
  }

  lemma ScaledTen(x: real, k: int)
    ensures Scaled(10.0 * x, k) == Scaled(x, k + 1)
  {
    ScaledNext(x, k);
    ScaledShift(x, k);
  }

  lemma SameValueIsEqual(a: Decimal, b: Decimal)
    requires SameValue(a, b)
    ensures Value(a) == Value(b)
  {
    hide Scaled, Pow10;
    if a.e <= b.e { ScaledByPow(b.m, b.e - a.e, a.e); } else { ScaledByPow(a.m, a.e - b.e, b.e); }
  }

  // ---- nine digits are enough ------------------------------------------------------------------------

  lemma {:induction false} UpLinear(x: real, n: nat)
    ensures Up(x, n) == x * Up(1.0, n) && Down(x, n) == x * Down(1.0, n)
  {
    if n > 0 { UpLinear(x, n - 1); }
  }

  lemma ScaledLinear(x: real, k: int)
    ensures Scaled(x, k) == x * Scaled(1.0, k)
  {
    UpLinear(x, if k >= 0 then k else -k);
  }

  lemma UnitPositive(k: int)
    ensures Scaled(1.0, k) > 0.0
  {
    ScaledPositive(1.0, k);
  }

  /** The rounded mantissa lies within half a unit of the digit that was asked for, also when
      rounding carried into one more digit. */
  lemma RoundedWithin(a: real, e: int, sig: nat)
    requires HasExponent(a, e) && 1 <= sig <= 9
    ensures var (m, f) := Mantissa(a, e, sig);
            var x := Scaled(a, sig - 1 - e);
            || (f == e && HalfUnit(m, x))
            || (f == e + 1 && 10 * m == Pow10(sig) && Pow10(sig) as real - 0.5 <= x <= Pow10(sig) as real)
  {
    hide Scaled, Pow10;
    SigDigits(sig);
    ScaledToDigits(a, e, sig);
    ScaledNext(a, sig - 2 - e);
    MantissaRounds(a, e, e, sig);
  }

  ghost predicate Within(x: real, y: real, r: real) { -r <= x - y <= r }

  /** Distances in units of the last digit. */
  lemma UnitsApart(m: real, x: real, p: real)
    requires -0.5 <= m - x <= 0.5 && p > 0.0
    ensures Within(m * p, x * p, 0.5 * p)
  {
    var y := m - x;
    assert m * p - x * p == y * p;
    assert -0.5 * p <= y * p <= 0.5 * p;
  }

  /** What is read back lies within half a unit of the last digit asked for. */
  lemma PrintedNear(neg: bool, a: real, e: int, sig: nat)
    requires InRange(a) && HasExponent(a, e) && 1 <= sig <= 9
    ensures Abs(Mantissa(a, e, sig).1) < 1000
    ensures var r := Scan(FormatText(neg, a, e, sig));
            r.Number? && r.neg == neg && r.mag.Finite? && Within(Value(r.mag.d), a, 0.5 * Scaled(1.0, e - sig + 1))
  {
    hide Scaled, Pow10, Scan, FormatText, Mantissa, InRange, HasExponent, SameValue;
    FormatReadsBack(neg, a, e, e, sig);
    var (m, f) := Mantissa(a, e, sig);
    SameValueIsEqual(Scan(FormatText(neg, a, e, sig)).mag.d, Decimal(m, f - sig + 1));
    RoundedWithin(a, e, sig);
    var x := Scaled(a, sig - 1 - e);
    var p := Scaled(1.0, e - sig + 1);
    UnitPositive(e - sig + 1);
    ScaledBack(a, sig - 1 - e);
    ScaledLinear(x, e - sig + 1);
    assert a == x * p;
    if f == e {
      ScaledLinear(m as real, e - sig + 1);
      UnitsApart(m as real, x, p);
      assert Value(Scan(FormatText(neg, a, e, sig)).mag.d) == m as real * p;
    } else {
      ScaledTen(m as real, e - sig + 1);
      ScaledLinear(10.0 * m as real, e - sig + 1);
      UnitsApart(10.0 * m as real, x, p);
      assert Value(Scan(FormatText(neg, a, e, sig)).mag.d) == 10.0 * m as real * p;
    }
  }

  lemma Up8(x: real)
    ensures Up(x, 8) == 100_000_000.0 * x
  {
    hide Up;
    UpTwo(x, 0);
    UpTwo(x, 2);
    UpTwo(x, 4);
    UpTwo(x, 6);
  }

  /** The ninth digit of a float counts less than a twelfth of the distance to the next one. */
  lemma NinthDigit(b: u32, e: int)
    requires HasExponent(Mag(b), e)
    ensures 0.5 * Scaled(1.0, e - 8) <= Ulp(b) / 8.0
  {
    hide Scaled, Two, Up;
    var (a, p, u) := (Mag(b), Scaled(1.0, e - 8), Ulp(b));
    ScaledBack(a, -e);
    ScaledMono(1.0, Scaled(a, -e), e);
    ScaledUp(1.0, e - 8, 8);
    Up8(p);
    assert a >= 100_000_000.0 * p;
    UlpPositive(b);
    SignificandBound(Significand(b) as real, u);
    assert a <= 16_777_216.0 * u;
  }

  lemma SignificandBound(m: real, u: real)
    requires m <= 16_777_216.0 && u > 0.0
    ensures m * u <= 16_777_216.0 * u
  {}

  lemma UlpPositive(b: u32)
    ensures Ulp(b) > 0.0
  {
    TwoPositive(if Binade(b) >= 0 then Binade(b) else -Binade(b));
  }

  lemma {:induction false} Farther(m: nat, n: nat)
    requires m <= n
    ensures 1.0 <= Up(1.0, m) <= Up(1.0, n) && 0.0 < Down(1.0, n) <= Down(1.0, m)
    decreases n
  {
    if m < n {
      Farther(m, n - 1);
    } else if n > 0 {
      Farther(n - 1, n - 1);
    }
  }

  /** 2^24 * 2^k is less than any double's upper bound, and 2^k more than the lower one. */
  lemma BinadeInRange(k: int)
    requires -149 <= k <= 104
    ensures Scaled(1.0, LOWEST) <= Two(k) && 16_777_216.0 * Two(k) < Scaled(1.0, HIGHEST)
  {
    hide Up, Down, TwoUp, TwoDown;
    var n := if k >= 0 then k else -k;
    TwoBetween(n);
    TwoSmall(n);
    Farther(n, -LOWEST);
    Farther(0, -LOWEST);
    UpZero();
    Up8(Up(1.0, n));
    UpSum(n, 8);
    Farther(n + 8, HIGHEST - 1);
    UpOne(HIGHEST - 1);
  }

  /** The finite nonzero floats lie in the range of the formatter. */
  lemma FloatInRange(b: u32)
    requires IsFinite(b) && !IsZero(b)
    ensures InRange(Mag(b))
  {
    var (m, k) := (Significand(b) as real, Binade(b));
    assert 1.0 <= m <= 16_777_216.0 && -149 <= k <= 104;
    hide Scaled, Two, Significand, Binade;
    BinadeInRange(k);
    UlpPositive(b);
    SignificandBound(m, Ulp(b));
    SignificandBase(m, Ulp(b));
    assert Mag(b) == m * Ulp(b);
    assert Ulp(b) == Two(k);
    assert Mag(b) < Scaled(1.0, HIGHEST);
  }

  lemma SignificandBase(m: real, u: real)
    requires 1.0 <= m && u > 0.0
    ensures u <= m * u
  {
    assert 0.0 <= (m - 1.0) * u;
  }

  lemma UpZero()
    ensures Down(1.0, 0) == 1.0
  {}

  lemma UpOne(n: nat)
    ensures Up(1.0, n + 1) == 10.0 * Up(1.0, n)
  {}

  lemma {:induction false} UpSum(m: nat, n: nat)
    ensures Up(1.0, m + n) == Up(Up(1.0, m), n)
  {
    if n > 0 { UpSum(m, n - 1); }
  }

  // ---- the writer ------------------------------------------------------------------------------------

  /** `t` is what the formatter makes of a finite float with `sig` digits. */
  ghost predicate IsText(b: u32, sig: nat, t: string)
    requires 1 <= sig <= 9
  {
    if IsZero(b) then t == if Negative(b) then "-0" else "0"
    else
      exists e :: HasExponent(Mag(b), e) && Abs(Mantissa(Mag(b), e, sig).1) < 1000 && t == FormatText(Negative(b), Mag(b), e, sig)
  }

  /** Equal as floats: zeros of both signs are. */
  predicate SameFloat(a: u32, b: u32) { a == b || (IsZero(a) && IsZero(b)) }

  /** Four digits if they read back as the same float, else nine. */
  ghost predicate Prints(narrow: (bool, Magnitude) -> u32, b: u32, t: Option<string>)
  {
    if !IsFinite(b) then t.None?
    else
      exists short, long ::
        && IsText(b, 4, short) && IsText(b, 9, long)
        && t == Some(if SameFloat(ReadBack(narrow, short), b) then short else long)
  }

  function ReadBack(narrow: (bool, Magnitude) -> u32, t: string): u32
  {
    var n := Scan(t);
    if n.Number? then narrow(n.neg, n.mag) else NAN_BITS
  }

  /** What is asked of the narrowing: a zero stays a zero of its sign, and a decimal within an
      eighth of the distance between two floats from one of them becomes that one. Correct
      rounding gives much more, so there is room for the error of an intermediate double. */
  ghost predicate Narrows(narrow: (bool, Magnitude) -> u32)
  {
    && narrow(false, Zero) == 0 && narrow(true, Zero) == 0x8000_0000
    && forall b: u32, d: Decimal :: IsFinite(b) && !IsZero(b) && Within(Value(d), Mag(b), Ulp(b) / 8.0)
         ==> narrow(Negative(b), Finite(d)) == b
  }

  lemma ZeroMag(b: u32)
    requires IsFinite(b)
    ensures IsZero(b) <==> Mag(b) == 0.0
  {
    UlpPositive(b);
    if !IsZero(b) { SignificandBase(Significand(b) as real, Ulp(b)); }
  }

  /** Both zeros come back with their sign. */
  lemma ZerosRead(neg: bool)
    ensures Scan(if neg then "-0" else "0") == Number(if neg then 2 else 1, neg, Zero)
  {
    hide Scan;
    var n := Numeral(neg, "0", "", NoExp);
    WholeText(n);
    assert D("0") == 0;
    assert NumText(n) == if neg then "-0" else "0";
    WholeReads(n);
  }

  /** Every text of the formatter is consumed whole. */
  lemma TextReads(b: u32, sig: nat, t: string)
    requires IsFinite(b) && 1 <= sig <= 9 && IsText(b, sig, t)
    ensures Scan(t).Number? && Scan(t).consumed == |t| && Scan(t).neg == Negative(b)
  {
    hide Scan, FormatText, Mantissa, InRange, HasExponent, Mag;
    if IsZero(b) {
      ZerosRead(Negative(b));
    } else {
      FloatInRange(b);
      var e :| HasExponent(Mag(b), e) && Abs(Mantissa(Mag(b), e, sig).1) < 1000 && t == FormatText(Negative(b), Mag(b), e, sig);
      FormatReadsBack(Negative(b), Mag(b), e, e, sig);
    }
  }

  method FormatFloat(b: u32, sig: nat) returns (t: string, ghost e: int)
    requires IsFinite(b) && 1 <= sig <= 9
    ensures IsText(b, sig, t) && (!IsZero(b) ==> HasExponent(Mag(b), e))
  {
    hide Scan, FormatText, Mantissa, InRange, HasExponent, Mag;
    ZeroMag(b);
    if !IsZero(b) { FloatInRange(b); }
    var r;
    r, e := FmtG(Real(Negative(b), Mag(b)), sig, BUFFER);
    t := r.value;
  }

  method ChooseText(narrow: (bool, Magnitude) -> u32, b: u32) returns (t: string)
    requires IsFinite(b)
    ensures Prints(narrow, b, Some(t))
  {
    hide Scan, IsText, IsFinite, HasExponent, Mag, SameFloat;
    ghost var e;
    t, e := FormatFloat(b, SIG_DEFAULT);
    ghost var short := t;
    ghost var long := NineDigits(b, e);
    TextReads(b, SIG_DEFAULT, t);
    var n := ScanNum(t);
    if n.NoNumber? || n.consumed != |t| || !SameFloat(narrow(n.neg, n.mag), b) {
      ghost var f;
      t, f := FormatFloat(b, SIG_EXACT);
      long := t;
    }
    assert IsText(b, SIG_DEFAULT, short) && IsText(b, SIG_EXACT, long);
  }

  /** cfg_json_w_f32 */
  method WriteF32(out: Writer, narrow: (bool, Magnitude) -> u32, b: u32) returns (ghost t: Option<string>)
    requires out.Valid()
    modifies out, out.buf
    ensures Prints(narrow, b, t)
    ensures out.Valid() && out.Separated()
    ensures out.full == old(out.full) + old(out.SepText()) + if t.Some? then t.value else "null"
  {
    if !IsFinite(b) {
      t := None;
      out.Null();
      return;
    }
    hide Prints;
    var text := ChooseText(narrow, b);
    t := Some(text);
    out.Raw(text);
  }

  ghost function NineDigits(b: u32, e: int): (t: string)
    requires IsFinite(b) && (!IsZero(b) ==> HasExponent(Mag(b), e))
    ensures IsText(b, SIG_EXACT, t)
  {
    if IsZero(b) then if Negative(b) then "-0" else "0"
    else
    FloatInRange(b);
    FormatReadsBack(Negative(b), Mag(b), e, e, SIG_EXACT);
    FormatText(Negative(b), Mag(b), e, SIG_EXACT)
  }

  // ---- no float is lost ------------------------------------------------------------------------------

  /** Nine digits read back as the float they were made of. */
  lemma NineDigitsReturn(narrow: (bool, Magnitude) -> u32, b: u32, t: string)
    requires Narrows(narrow) && IsFinite(b) && IsText(b, SIG_EXACT, t)
    ensures ReadBack(narrow, t) == b
  {
    hide Scan, FormatText, Mantissa, InRange, HasExponent, Mag, Ulp;
    if IsZero(b) {
      ZerosRead(Negative(b));
    } else {
      FloatInRange(b);
      var e :|
        && HasExponent(Mag(b), e) && Abs(Mantissa(Mag(b), e, SIG_EXACT).1) < 1000
        && t == FormatText(Negative(b), Mag(b), e, SIG_EXACT);
      PrintedNear(Negative(b), Mag(b), e, SIG_EXACT);
      NinthDigit(b, e);
      assert Within(Value(Scan(t).mag.d), Mag(b), Ulp(b) / 8.0);
    }
  }

  /** Whatever text the writer chooses, it reads back as the same float, sign of zero included. */
  lemma PrintedReturns(narrow: (bool, Magnitude) -> u32, b: u32, t: Option<string>)
    requires Narrows(narrow) && IsFinite(b) && Prints(narrow, b, t)
    ensures t.Some? && ReadBack(narrow, t.value) == b
  {
    hide IsText, ReadBack;
    var short, long :|
      && IsText(b, SIG_DEFAULT, short) && IsText(b, SIG_EXACT, long)
      && t == Some(if SameFloat(ReadBack(narrow, short), b) then short else long);
    NineDigitsReturn(narrow, b, long);
    if IsZero(b) { assert short == long by { ZeroText(b, short, long); } }
  }

  lemma ZeroText(b: u32, short: string, long: string)
    requires IsZero(b) && IsText(b, SIG_DEFAULT, short) && IsText(b, SIG_EXACT, long)
    ensures short == long
  {}

  /** The floats of the config as they are on this wire. */
  ghost predicate Real32(w: Wire) { Narrows(w.narrow) && forall b: u32 :: Prints(w.narrow, b, w.text(b)) }

  /** A float survives as text exactly if it is finite or the one NaN that stands for unset. */
  lemma SurvivesExactly(w: Wire, b: u32)
    requires Real32(w)
    ensures ConfigDocRound.Survives(w, b) <==> IsFinite(b) || b == NAN_BITS
  {
    hide Prints, Scan, Narrows;
    assert Prints(w.narrow, b, w.text(b));
    if IsFinite(b) {
      PrintedReturns(w.narrow, b, w.text(b));
    } else {
      assert w.text(b).None? by { NotPrinted(w.narrow, b, w.text(b)); }
    }
  }

  lemma NotPrinted(narrow: (bool, Magnitude) -> u32, b: u32, t: Option<string>)
    requires Prints(narrow, b, t) && !IsFinite(b)
    ensures t.None?
  {}

  lemma TextIsNumber(b: u32, sig: nat, t: string)
    requires IsFinite(b) && 1 <= sig <= 9 && IsText(b, sig, t)
    ensures JsonGrammar.IsNumber(t) && |t| <= JsonGrammar.NUM_CHARS_MAX
  {
    hide Scan, FormatText, Mantissa, InRange, HasExponent, Mag;
    TextReads(b, sig, t);
    if !IsZero(b) {
      FloatInRange(b);
      var e :| HasExponent(Mag(b), e) && Abs(Mantissa(Mag(b), e, sig).1) < 1000 && t == FormatText(Negative(b), Mag(b), e, sig);
      FormatReadsBack(Negative(b), Mag(b), e, e, sig);
    }
    ScannedIsNumber(t);
  }

  lemma ScannedIsNumber(t: string)
    requires Scan(t).Number? && Scan(t).consumed == |t|
    ensures JsonGrammar.IsNumber(t)
  {
    hide Split1, NumText;
    SplitIsLegal(t);
    assert t[..|t|] == t;
  }

  /** Such floats always fit the wire. */
  lemma FloatsFit(w: Wire)
    requires Real32(w)
    ensures ConfigWire.TextFits(w)
  {
    hide IsText, IsFinite, JsonGrammar.IsNumber;
    forall b: u32 | w.text(b).Some?
      ensures JsonGrammar.IsNumber(w.text(b).value) && |w.text(b).value| <= JsonGrammar.NUM_CHARS_MAX
    {
      assert Prints(w.narrow, b, w.text(b));
      var short, long :|
        && IsText(b, SIG_DEFAULT, short) && IsText(b, SIG_EXACT, long)
        && (w.text(b).value == short || w.text(b).value == long);
      TextIsNumber(b, SIG_DEFAULT, short);
      TextIsNumber(b, SIG_EXACT, long);
    }
  }

  /** With the floats of this wire: the text of a config is well-formed, and reading it over any
      base gives back the very same config exactly when it is faithful. */
  lemma FloatsReturn(w: Wire, base: Config, c: Config, fw: Option<string>)
    requires Real32(w) && (fw.Some? ==> IsCString(fw.value))
    ensures var text := Printed(DocTree(w, c, fw));
            && ConfigMsg.WellFormed(text) && ValueAt(text, 0, 0).Some?
            && (Parsed(w, base, ValueAt(text, 0, 0).value) == DocMembers.Took(Applied(c, SCHEMA), 0) <==>
                  ConfigDocRound.Faithful(w, base, c))
  {
    hide Real32, ConfigDocRound.Faithful, Parsed, DocTree, Printed;
    FloatsFit(w);
    ConfigWire.WireRoundTrip(w, base, c, fw);
  }

  // ---- such a conversion exists ----------------------------------------------------------------------

  lemma TwoNext(k: int)
    ensures Two(k + 1) == 2.0 * Two(k)
  {
    if k < 0 { assert TwoDown(-k) == TwoDown(-k - 1) / 2.0; }
  }

  lemma {:induction false} TwoMono(j: int, k: int)
    requires j <= k
    ensures 0.0 < Two(j) <= Two(k) && (j < k ==> 2.0 * Two(j) <= Two(k))
    decreases k - j
  {
    if j == k {
      TwoPositive(if j >= 0 then j else -j);
    } else {
      hide Two;
      TwoMono(j, k - 1);
      TwoNext(k - 1);
    }
  }

  lemma Distributes(x: real, d: real, u: real)
    ensures Times(x + d, u) == Times(x, u) + Times(d, u)
  {}

  lemma TimesBase(d: real, u: real)
    requires 1.0 <= d && u > 0.0
    ensures Times(d, u) >= u
  {
    SignificandBase(d, u);
  }

  /** A float of a higher binade is at least half its own gap above one of a lower binade. */
  lemma HigherBinade(m: real, n: real, u: real, t: real)
    requires m <= 16_777_215.0 && 8_388_608.0 <= n && u > 0.0 && 2.0 * u <= t
    ensures n * t - m * u >= 0.5 * t
  {
    assert (16_777_215.0 - m) * u >= 0.0 && (n - 8_388_608.0) * t >= 0.0;
    assert m * u <= 16_777_215.0 * u && 8_388_608.0 * t <= n * t;
  }

  /** Two floats are farther apart than their windows reach. */
  lemma GapBetween(a: u32, b: u32)
    requires IsFinite(a) && IsFinite(b) && a % 0x8000_0000 < b % 0x8000_0000
    ensures Mag(b) - Mag(a) > Ulp(a) / 8.0 + Ulp(b) / 8.0
  {
    BinadesOrdered(a, b);
    SignificandsFit(a, b);
    hide Two, Significand, Binade, IsFinite, Times;
    TwoMono(Binade(a), Binade(b));
    if Binade(a) == Binade(b) {
      SameGap(Significand(a) as real, Significand(b) as real - Significand(a) as real, Two(Binade(a)));
    } else {
      HigherGap(Significand(a) as real, Significand(b) as real, Two(Binade(a)), Two(Binade(b)));
    }
  }

  lemma SameGap(m: real, d: real, u: real)
    requires 1.0 <= d && u > 0.0
    ensures Times(m + d, u) - Times(m, u) > u / 8.0 + u / 8.0
  {
    hide Times;
    TimesBase(d, u);
    Distributes(m, d, u);
  }

  lemma HigherGap(m: real, n: real, u: real, t: real)
    requires m <= 16_777_215.0 && 8_388_608.0 <= n && u > 0.0 && 2.0 * u <= t
    ensures Times(n, t) - Times(m, u) > u / 8.0 + t / 8.0
  {
    HigherBinade(m, n, u, t);
  }

  lemma SignificandsFit(a: u32, b: u32)
    ensures Significand(a) as real <= 16_777_215.0
    ensures Significand(b) >= 0x80_0000 ==> Significand(b) as real >= 8_388_608.0
    ensures Significand(a) < Significand(b) ==> Significand(a) as real + 1.0 <= Significand(b) as real
  {}

  lemma BinadesOrdered(a: u32, b: u32)
    requires IsFinite(a) && IsFinite(b) && a % 0x8000_0000 < b % 0x8000_0000
    ensures Binade(a) < Binade(b) ==> Significand(b) >= 0x80_0000
    ensures Binade(a) <= Binade(b) && (Binade(a) == Binade(b) ==> Significand(a) < Significand(b))
  {
    var (c, d) := (a % 0x8000_0000, b % 0x8000_0000);
    assert a % 0x80_0000 == c % 0x80_0000 && b % 0x80_0000 == d % 0x80_0000;
    assert c == Biased(a) * 0x80_0000 + Fraction(a) && d == Biased(b) * 0x80_0000 + Fraction(b);
  }

  lemma LowerIsApart(a: u32, b: u32, v: real)
    requires IsFinite(a) && IsFinite(b) && a % 0x8000_0000 < b % 0x8000_0000 && Within(v, Mag(a), Ulp(a) / 8.0)
    ensures !Within(v, Mag(b), Ulp(b) / 8.0)
  {
    GapBetween(a, b);
    hide Mag, Ulp;
  }

  /** The windows of different floats of one sign do not meet. */
  lemma WindowsApart(a: u32, b: u32, v: real)
    requires IsFinite(a) && IsFinite(b) && Negative(a) == Negative(b)
    requires Within(v, Mag(a), Ulp(a) / 8.0) && Within(v, Mag(b), Ulp(b) / 8.0)
    ensures a == b
  {
    hide Mag, Ulp, Within;
    if a % 0x8000_0000 < b % 0x8000_0000 {
      LowerIsApart(a, b, v);
    } else if b % 0x8000_0000 < a % 0x8000_0000 {
      LowerIsApart(b, a, v);
    }
  }

  /** `b` is the float whose window a decimal lies in. */
  ghost predicate InWindow(neg: bool, d: Decimal, b: u32)
  {
    IsFinite(b) && !IsZero(b) && Negative(b) == neg && Within(Value(d), Mag(b), Ulp(b) / 8.0)
  }

  ghost function Narrowing(neg: bool, mag: Magnitude): u32
  {
    if mag.Zero? then if neg then 0x8000_0000 else 0
    else if mag.Finite? && exists b: u32 :: InWindow(neg, mag.d, b) then
      var b: u32 :| InWindow(neg, mag.d, b);
      b
    else NAN_BITS
  }

  lemma NarrowingNarrows()
    ensures Narrows((neg, mag) => Narrowing(neg, mag))
  {
    hide Mag, Ulp, Within;
    forall b: u32, d: Decimal | InWindow(Negative(b), d, b) ensures Narrowing(Negative(b), Finite(d)) == b {
      var c := Narrowing(Negative(b), Finite(d));
      assert InWindow(Negative(b), d, c);
      WindowsApart(b, c, Value(d));
    }
  }

  lemma {:induction false} FindExponent(a: real, e: int, n: nat)
    requires 1.0 <= Scaled(a, -e) < Up(1.0, n)
    ensures exists x :: HasExponent(a, x)
    decreases n
  {
    if Scaled(a, -e) < 10.0 {
      assert HasExponent(a, e);
    } else {
      ScaledNext(a, -e - 1);
      hide Scaled;
      if n > 0 { FindExponent(a, e + 1, n - 1); }
    }
  }

  lemma ExponentExists(a: real)
    requires InRange(a)
    ensures exists e :: HasExponent(a, e)
  {
    var (low, high) := (Scaled(1.0, LOWEST), Scaled(1.0, HIGHEST));
    ScaledMono(low, a, -LOWEST);
    ScaledMono(a, high, -LOWEST);
    ScaledBack(1.0, LOWEST);
    UpSum(HIGHEST, -LOWEST);
    assert Scaled(high, -LOWEST) == Up(Up(1.0, HIGHEST), -LOWEST);
    FindExponent(a, LOWEST, HIGHEST - LOWEST);
  }

  lemma TextExists(b: u32, sig: nat)
    requires IsFinite(b) && 1 <= sig <= 9
    ensures exists t :: IsText(b, sig, t)
  {
    if IsZero(b) {
      assert IsText(b, sig, if Negative(b) then "-0" else "0");
    } else {
      FloatInRange(b);
      ExponentExists(Mag(b));
      hide Mag, HasExponent, InRange, FormatText, Mantissa;
      var e :| HasExponent(Mag(b), e);
      FormatReadsBack(Negative(b), Mag(b), e, e, sig);
      assert IsText(b, sig, FormatText(Negative(b), Mag(b), e, sig));
    }
  }

  lemma PrintExists(narrow: (bool, Magnitude) -> u32, b: u32)
    ensures exists t :: Prints(narrow, b, t)
  {
    hide IsText, IsFinite, SameFloat;
    if IsFinite(b) {
      TextExists(b, SIG_DEFAULT);
      TextExists(b, SIG_EXACT);
      var short :| IsText(b, SIG_DEFAULT, short);
      var long :| IsText(b, SIG_EXACT, long);
      assert Prints(narrow, b, Some(if SameFloat(ReadBack(narrow, short), b) then short else long));
    } else {
      assert Prints(narrow, b, None);
    }
  }

  ghost function Printing(narrow: (bool, Magnitude) -> u32, b: u32): (t: Option<string>)
    ensures Prints(narrow, b, t)
  {
    PrintExists(narrow, b);
    var t :| Prints(narrow, b, t);
    t
  }

  /** What the results about floats assume can be had. */
  lemma WireExists()
    ensures exists w :: Real32(w)
  {
    hide Prints, Narrows;
    NarrowingNarrows();
    var narrow := (neg, mag) => Narrowing(neg, mag);
    var w := Wire((b: u32) => Printing(narrow, b), narrow);
    assert Real32(w);
  }
}
