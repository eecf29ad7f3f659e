/** Numbers on the config wire: the RFC 8259 number grammar, the decimal a number
    denotes, and the hand-written scanner and formatter of control/Src/config_json.c. */
module JsonNumber {
  import opened Words

  // ---- digits ----------------------------------------------------------------------------

  predicate IsDigit(c: char) { '0' <= c <= '9' }

  function Val(c: char): nat
    requires IsDigit(c)
  {
    (c - '0') as nat
  }

  function Chr(d: nat): (c: char)
    requires d < 10
    ensures IsDigit(c) && Val(c) == d
  {
    '0' + d as char
  }

  predicate AllDigits(s: string) { forall i :: 0 <= i < |s| ==> IsDigit(s[i]) }

  predicate Digits(s: string) { |s| > 0 && AllDigits(s) }

  function Pow10(n: nat): (p: nat) ensures p >= 1 { if n == 0 then 1 else 10 * Pow10(n - 1) }

  /** The integer a digit string denotes. */
  function D(s: string): nat
    requires AllDigits(s)
  {
    if s == "" then 0 else 10 * D(s[..|s| - 1]) + Val(s[|s| - 1])
  }

  lemma {:induction false} Pow10Sum(m: nat, n: nat)
    ensures Pow10(m + n) == Pow10(m) * Pow10(n)
  {
    if n > 0 {
      Pow10Sum(m, n - 1);
      assert Pow10(m + n) == 10 * (Pow10(m) * Pow10(n - 1)) == Pow10(m) * (10 * Pow10(n - 1));
    }
  }

  lemma DLast(s: string)
    requires s != "" && AllDigits(s)
    ensures D(s) == 10 * D(s[..|s| - 1]) + Val(s[|s| - 1])
  {}

  lemma TenTimes(x: nat, n: nat)
    ensures 10 * (x * Pow10(n)) == x * Pow10(n + 1)
  {
    assert Pow10(n + 1) == 10 * Pow10(n);
  }

  lemma {:induction false} DAppend(a: string, b: string)
    requires AllDigits(a) && AllDigits(b)
    ensures AllDigits(a + b) && D(a + b) == D(a) * Pow10(|b|) + D(b)
  {
    if b == "" {
      assert a + b == a;
    } else {
      var front := b[..|b| - 1];
      DAppend(a, front);
      DLast(a + b);
      DLast(b);
      assert (a + b)[..|a + b| - 1] == a + front;
      hide D, Pow10;
      TenTimes(D(a), |front|);
    }
  }

  lemma {:induction false} DBound(s: string)
    requires AllDigits(s)
    ensures D(s) < Pow10(|s|)
  {
    if s != "" { DBound(s[..|s| - 1]); }
  }

  lemma {:induction false} DOfZeros(s: string)
    requires forall i :: 0 <= i < |s| ==> s[i] == '0'
    ensures AllDigits(s) && D(s) == 0
  {
    if s != "" { DOfZeros(s[..|s| - 1]); }
  }

  function Zeros(n: nat): (s: string)
    ensures |s| == n && forall i :: 0 <= i < n ==> s[i] == '0'
  {
    seq(n, _ => '0')
  }

  // ---- the number grammar, section 6 of RFC 8259 -----------------------------------------

  datatype Exponent = NoExp | Exp(mark: char, sign: string, digits: string)

  /** A number by its parts; no fraction is an empty `frac`. */
  datatype Numeral = Numeral(neg: bool, whole: string, frac: string, exp: Exponent)

  predicate LegalExp(x: Exponent)
  {
    x.Exp? ==> (x.mark == 'e' || x.mark == 'E') && (x.sign == "" || x.sign == "+" || x.sign == "-") && Digits(x.digits)
  }

  predicate Legal(n: Numeral)
  {
    && Digits(n.whole) && (n.whole[0] == '0' ==> |n.whole| == 1)
    && AllDigits(n.frac) && LegalExp(n.exp)
  }

  function ExpText(x: Exponent): string { if x.NoExp? then "" else [x.mark] + x.sign + x.digits }

  function FracText(frac: string): string { if frac == "" then "" else "." + frac }

  function NumText(n: Numeral): string
  {
    (if n.neg then "-" else "") + n.whole + FracText(n.frac) + ExpText(n.exp)
  }

  // ---- the decimal a number denotes ------------------------------------------------------

  /** m * 10^e */
  datatype Decimal = Decimal(m: nat, e: int)

  function ExpValue(x: Exponent): int
    requires LegalExp(x)
  {
    if x.NoExp? then 0 else if x.sign == "-" then 0 - D(x.digits) else D(x.digits)
  }

  /** The magnitude of a number. */
  function Exact(n: Numeral): Decimal
    requires Legal(n)
  {
    Decimal(D(n.whole + n.frac), ExpValue(n.exp) - |n.frac|)
  }

  /** Two decimals denote one rational. */
  predicate SameValue(a: Decimal, b: Decimal)
  {
    if a.e <= b.e then a.m == b.m * Pow10(b.e - a.e) else a.m * Pow10(a.e - b.e) == b.m
  }

  // ---- the scanner -----------------------------------------------------------------------

  const KEPT: nat := 19

  /** What cfg_json_scan_num makes of a magnitude before rounding to a double. */
  datatype Magnitude = Zero | Huge | Finite(d: Decimal)

  datatype Scanned = NoNumber | Number(consumed: nat, neg: bool, mag: Magnitude)

  /** The saturating exponent accumulator. */
  function Saturated(digits: string): nat
    requires AllDigits(digits)
  {
    if digits == "" then 0
    else
      var v := Saturated(digits[..|digits| - 1]);
      if v < 100000 then 10 * v + Val(digits[|digits| - 1]) else v
  }

  function ScannedExp(x: Exponent): int
    requires LegalExp(x)
  {
    if x.NoExp? then 0 else if x.sign == "-" then 0 - Saturated(x.digits) else Saturated(x.digits)
  }

  /** The mantissa and exponent the scanner accumulates: the first 19 digits. */
  function Kept(n: Numeral): Decimal
    requires Legal(n)
  {
    var digits := n.whole + n.frac;
    var k := Min(KEPT, |digits|);
    Decimal(D(digits[..k]), |n.whole| - k + ScannedExp(n.exp))
  }

  function Judge(d: Decimal): Magnitude
  {
    if d.m == 0 then Zero else if d.e > 400 then Huge else if d.e < -400 then Zero else Finite(d)
  }

  /** The end of the digit run at `i`. */
  function RunEnd(s: string, i: nat): (j: nat)
    requires i <= |s|
    ensures i <= j <= |s| && (forall k :: i <= k < j ==> IsDigit(s[k])) && (j < |s| ==> !IsDigit(s[j]))
    ensures AllDigits(s[i..j])
    decreases |s| - i
  {
    if i < |s| && IsDigit(s[i]) then RunEnd(s, i + 1) else i
  }

  lemma RunEndAt(s: string, i: nat, j: nat)
    requires i <= j <= |s| && AllDigits(s[i..j]) && (j < |s| ==> !IsDigit(s[j]))
    ensures RunEnd(s, i) == j
  {
    assert forall k :: i <= k < j ==> s[k] == s[i..j][k - i];
  }

  datatype Split<T> = Bad | Good(part: T, next: nat)

  function SplitWhole(s: string, i: nat): (r: Split<string>)
    requires i <= |s|
    ensures r.Good? ==> i < r.next <= |s| && Digits(r.part) && r.part == s[i..r.next]
    ensures r.Good? && r.part[0] == '0' ==> |r.part| == 1
  {
    if i >= |s| || !IsDigit(s[i]) then Bad
    else if s[i] == '0' then (if i + 1 < |s| && IsDigit(s[i + 1]) then Bad else Good(s[i..i + 1], i + 1))
    else Good(s[i..RunEnd(s, i)], RunEnd(s, i))
  }

  function SplitFrac(s: string, i: nat): (r: Split<string>)
    requires i <= |s|
    ensures r.Good? ==> i <= r.next <= |s| && AllDigits(r.part) && FracText(r.part) == s[i..r.next]
  {
    if i >= |s| || s[i] != '.' then Good("", i)
    else if i + 1 >= |s| || !IsDigit(s[i + 1]) then Bad
    else Good(s[i + 1..RunEnd(s, i + 1)], RunEnd(s, i + 1))
  }

  predicate IsSign(c: char) { c == '+' || c == '-' }

  function SplitExp(s: string, i: nat): (r: Split<Exponent>)
    requires i <= |s|
    ensures r.Good? ==> i <= r.next <= |s| && LegalExp(r.part) && ExpText(r.part) == s[i..r.next]
  {
    if i >= |s| || (s[i] != 'e' && s[i] != 'E') then Good(NoExp, i)
    else
      var d := if i + 1 < |s| && IsSign(s[i + 1]) then i + 2 else i + 1;
      if d >= |s| || !IsDigit(s[d]) then Bad
      else
        var j := RunEnd(s, d);
        assert [s[i]] + s[i + 1..d] + s[d..j] == s[i..j];
        Good(Exp(s[i], s[i + 1..d], s[d..j]), j)
  }

  /** The number at the front of a text, as the scanner delimits it. */
  function Split1(s: string): (r: Split<Numeral>)
    ensures r.Good? ==> 0 < r.next <= |s|
  {
    var neg := |s| > 0 && s[0] == '-';
    var w := SplitWhole(s, if neg then 1 else 0);
    if w.Bad? then Bad else
    var f := SplitFrac(s, w.next);
    if f.Bad? then Bad else
    var x := SplitExp(s, f.next);
    if x.Bad? then Bad else Good(Numeral(neg, w.part, f.part, x.part), x.next)
  }

  function Scan(s: string): Scanned
  {
    var r := Split1(s);
    if r.Bad? then NoNumber
    else SplitIsLegal(s); Number(r.next, r.part.neg, Judge(Kept(r.part)))
  }

  /** What the scanner accepts is a number of the grammar, and is what it consumed. */
  lemma SplitIsLegal(s: string)
    requires Split1(s).Good?
    ensures Legal(Split1(s).part) && NumText(Split1(s).part) == s[..Split1(s).next]
  {
    hide SplitWhole, SplitFrac, SplitExp, ExpText, FracText;
    var r := Split1(s);
    var i := if r.part.neg then 1 else 0;
    var w := SplitWhole(s, i).next;
    var f := SplitFrac(s, w).next;
    InFourParts(s, i, w, f, r.next);
  }

  lemma InFourParts(s: string, i: nat, w: nat, f: nat, n: nat)
    requires i <= w <= f <= n <= |s|
    ensures s[..n] == s[..i] + s[i..w] + s[w..f] + s[f..n]
  {}

  /** Every number of the grammar is accepted, whole and as itself. */
  lemma SplitOfText(n: Numeral)
    requires Legal(n)
    ensures Split1(NumText(n)) == Good(n, |NumText(n)|)
  {
    hide NumText, FracText, ExpText, SplitWhole, SplitFrac, SplitExp, IsDigit, AllDigits;
    var s := NumText(n);
    var i, w, f := WholeAt(n), FracAt(n), ExpAt(n);
    TextParts(n);
    AfterParts(n);
    WholeOfText(s, i, n.whole);
    FracOfText(s, w, n.frac);
    ExpOfText(s, f, n.exp);
  }

  function WholeAt(n: Numeral): nat { if n.neg then 1 else 0 }
  function FracAt(n: Numeral): nat { WholeAt(n) + |n.whole| }
  function ExpAt(n: Numeral): nat { FracAt(n) + |FracText(n.frac)| }

  lemma TextParts(n: Numeral)
    ensures ExpAt(n) <= |NumText(n)| && NumText(n)[WholeAt(n)..FracAt(n)] == n.whole
    ensures NumText(n)[FracAt(n)..ExpAt(n)] == FracText(n.frac) && NumText(n)[ExpAt(n)..] == ExpText(n.exp)
    ensures n.neg ==> NumText(n)[0] == '-'
  {
    hide FracText, ExpText;
  }

  lemma AfterParts(n: Numeral)
    requires Legal(n)
    ensures var s := NumText(n);
            && (s[0] == '-' <==> n.neg)
            && (FracAt(n) < |s| ==> !IsDigit(s[FracAt(n)]))
            && (ExpAt(n) < |s| ==> !IsDigit(s[ExpAt(n)]) && s[ExpAt(n)] != '.')
  {
    TextParts(n);
    var s := NumText(n);
    assert s[WholeAt(n)..FracAt(n)][0] == s[WholeAt(n)];
    if ExpAt(n) < |s| { assert s[ExpAt(n)..][0] == s[ExpAt(n)]; }
    if FracAt(n) < ExpAt(n) { assert s[FracAt(n)..ExpAt(n)][0] == s[FracAt(n)]; }
  }

  lemma WholeOfText(s: string, i: nat, whole: string)
    requires Digits(whole) && (whole[0] == '0' ==> |whole| == 1)
    requires i + |whole| <= |s| && s[i..i + |whole|] == whole
    requires i + |whole| < |s| ==> !IsDigit(s[i + |whole|])
    ensures SplitWhole(s, i) == Good(whole, i + |whole|)
  {
    assert s[i] == whole[0];
    RunEndAt(s, i, i + |whole|);
  }

  lemma FracOfText(s: string, w: nat, frac: string)
    requires AllDigits(frac) && w + |FracText(frac)| <= |s| && s[w..w + |FracText(frac)|] == FracText(frac)
    requires w + |FracText(frac)| < |s| ==> !IsDigit(s[w + |FracText(frac)|]) && s[w + |FracText(frac)|] != '.'
    ensures SplitFrac(s, w) == Good(frac, w + |FracText(frac)|)
  {
    if frac != "" {
      var f := w + 1 + |frac|;
      assert s[w] == FracText(frac)[0] && s[w + 1] == FracText(frac)[1];
      assert s[w + 1..f] == FracText(frac)[1..] == frac;
      RunEndAt(s, w + 1, f);
    }
  }

  lemma ExpOfText(s: string, f: nat, x: Exponent)
    requires f <= |s| && LegalExp(x) && s[f..] == ExpText(x)
    ensures SplitExp(s, f) == Good(x, |s|)
  {
    if x.Exp? {
      var d := f + 1 + |x.sign|;
      assert s[f] == x.mark && s[f + 1..d] == x.sign && s[d..] == x.digits && s[d] == x.digits[0];
      assert s[d..|s|] == s[d..];
      RunEndAt(s, d, |s|);
      if x.sign != "" { assert s[f + 1] == x.sign[0]; } else { assert s[f + 1] == x.digits[0]; }
    }
  }

  // ---- what the scanner reads, in exact arithmetic ---------------------------------------

  lemma {:induction false} SaturatedIs(digits: string)
    requires AllDigits(digits)
    ensures D(digits) < 100000 ==> Saturated(digits) == D(digits)
    ensures D(digits) >= 100000 <==> Saturated(digits) >= 100000
    ensures Saturated(digits) <= D(digits) && Saturated(digits) < 1000000
  {
    if digits != "" { SaturatedIs(digits[..|digits| - 1]); }
  }

  /** How many digits of a number the scanner does not keep. */
  function Dropped(n: Numeral): nat
    requires Legal(n)
  {
    |n.whole + n.frac| - Min(19, |n.whole + n.frac|)
  }

  /** The number with its exponent as the scanner accumulates it, all digits kept. */
  function ExactScanned(n: Numeral): Decimal
    requires Legal(n)
  {
    Decimal(D(n.whole + n.frac), ScannedExp(n.exp) - |n.frac|)
  }

  /** The scanner keeps the leading digits: what it reads is the number cut off after
      nineteen counted digits, so never above it and less than one unit below it. */
  lemma KeptIsCut(n: Numeral)
    requires Legal(n)
    ensures Kept(n).e == ExactScanned(n).e + Dropped(n)
    ensures Kept(n).m == ExactScanned(n).m / Pow10(Dropped(n)) && Kept(n).m < Pow10(19)
    ensures Dropped(n) == 0 ==> Kept(n) == ExactScanned(n)
  {
    hide D, Pow10;
    var digits := n.whole + n.frac;
    var k := Min(19, |digits|);
    var (front, back) := (digits[..k], digits[k..]);
    assert digits == front + back;
    DAppend(front, back);
    DBound(front);
    DBound(back);
    Quotient(D(front), Pow10(|back|), D(back));
    Pow10Mono(|front|, KEPT);
    assert |back| == Dropped(n);
    if Dropped(n) == 0 { assert front == digits; }
  }

  predicate AllZeros(s: string) { forall i :: 0 <= i < |s| ==> s[i] == '0' }

  lemma {:induction false} ZeroIsZeros(s: string)
    requires AllDigits(s)
    ensures D(s) == 0 <==> AllZeros(s)
  {
    if s != "" { ZeroIsZeros(s[..|s| - 1]); }
  }

  /** What the scanner reads is the number itself exactly if every digit it drops is a 0. */
  lemma KeptIsExactIff(n: Numeral)
    requires Legal(n)
    ensures SameValue(Kept(n), ExactScanned(n)) <==> AllZeros((n.whole + n.frac)[Min(19, |n.whole + n.frac|)..])
  {
    hide D, Pow10, AllZeros;
    var digits := n.whole + n.frac;
    var k := Min(19, |digits|);
    var (front, back) := (digits[..k], digits[k..]);
    assert digits == front + back;
    DAppend(front, back);
    ZeroIsZeros(back);
    KeptIsCut(n);
    assert |back| == Dropped(n);
    if Dropped(n) == 0 { SameScale(Kept(n), ExactScanned(n)); }
  }

  lemma SameScale(a: Decimal, b: Decimal)
    requires a.e == b.e
    ensures SameValue(a, b) <==> a.m == b.m
  {
    assert Pow10(0) == 1;
  }

  lemma {:induction false} Pow10Mono(m: nat, n: nat)
    requires m <= n
    ensures Pow10(m) <= Pow10(n)
    decreases n
  {
    if m < n { Pow10Mono(m, n - 1); }
  }

  /** Saturation only touches exponents far beyond any double: below it the scanner's
      exponent is the number's own. */
  lemma ScannedExpExact(n: Numeral)
    requires Legal(n)
    ensures -100000 < ScannedExp(n.exp) < 100000 ==> ExactScanned(n) == Exact(n)
    ensures ScannedExp(n.exp) >= 100000 ==> ExpValue(n.exp) >= 100000
    ensures ScannedExp(n.exp) <= -100000 ==> ExpValue(n.exp) <= -100000
  {
    if n.exp.Exp? { SaturatedIs(n.exp.digits); }
  }

  /** cfg_json_scan_num on a whole token: accepted exactly when it is a number of the
      grammar, and then as the only number it can be. */
  lemma ScanAcceptsNumbers(s: string, n: Numeral)
    ensures Scan(s).Number? && Scan(s).consumed == |s| <==> exists k :: Legal(k) && NumText(k) == s
    ensures Legal(n) && NumText(n) == s ==> Scan(s) == Number(|s|, n.neg, Judge(Kept(n)))
  {
    if Scan(s).Number? && Scan(s).consumed == |s| {
      SplitIsLegal(s);
      assert s[..|s|] == s;
      assert Legal(Split1(s).part) && NumText(Split1(s).part) == s;
    }
    forall k | Legal(k) && NumText(k) == s ensures Scan(s) == Number(|s|, k.neg, Judge(Kept(k))) { SplitOfText(k); }
  }

  // ---- the scanner's loops -----------------------------------------------------------------

  lemma NextDigit(d: string, k: nat)
    requires k < |d| && AllDigits(d)
    ensures D(d[..k + 1]) == 10 * D(d[..k]) + Val(d[k])
  {
    assert d[..k + 1][..k] == d[..k];
  }

  lemma KeptFits(d: string)
    requires AllDigits(d) && |d| <= KEPT
    ensures D(d) < POW64
  {
    DBound(d);
    Pow10Mono(|d|, KEPT);
    Pow10Nineteen();
  }

  lemma Pow10Nineteen()
    ensures Pow10(19) == 10000000000000000000
  {
    assert Pow10(2) == 100;
    Pow10Sum(2, 2);
    Pow10Sum(4, 4);
    Pow10Sum(8, 8);
    Pow10Sum(16, 2);
  }

  /** The accumulators after the digits `whole` and then `frac` went by. */
  ghost predicate Accumulated(whole: string, frac: string, mant: u64, sig: nat, exp10: int)
  {
    var digits := whole + frac;
    && AllDigits(digits) && sig == Min(KEPT, |digits|)
    && mant == D(digits[..sig]) && exp10 == |whole| - sig
  }

  /** One more digit, before or after the point. */
  lemma Accumulate(whole: string, frac: string, mant: u64, sig: nat, exp10: int, c: char)
    requires Accumulated(whole, frac, mant, sig, exp10) && IsDigit(c)
    ensures sig < KEPT ==> mant * 10 + Val(c) < POW64 && Accumulated(whole, frac + [c], mant * 10 + Val(c), sig + 1, exp10 - 1)
    ensures sig >= KEPT ==> Accumulated(whole, frac + [c], mant, sig, exp10)
    ensures frac == "" && sig < KEPT ==> Accumulated(whole + [c], "", mant * 10 + Val(c), sig + 1, exp10)
    ensures frac == "" && sig >= KEPT ==> Accumulated(whole + [c], "", mant, sig, exp10 + 1)
  {
    var digits := whole + frac;
    var more := digits + [c];
    assert whole + (frac + [c]) == more && (frac == "" ==> whole + [c] + "" == more);
    assert more[..sig] == digits[..sig];
    if sig < KEPT {
      NextDigit(more, sig);
      KeptFits(more[..sig + 1]);
    }
  }

  method ScanWhole(s: string, i: nat) returns (ok: bool, j: nat, mant: u64, sig: nat, exp10: int)
    requires i <= |s|
    ensures ok == SplitWhole(s, i).Good?
    ensures ok ==> j == SplitWhole(s, i).next && Accumulated(s[i..j], "", mant, sig, exp10)
  {
    hide Accumulated;
    ok, j, mant, sig, exp10 := false, i, 0, 0, 0;
    if i >= |s| || !IsDigit(s[i]) { return; }
    assert Accumulated("", "", 0, 0, 0) by { NothingAccumulated(); }
    if s[i] == '0' {
      if i + 1 < |s| && IsDigit(s[i + 1]) { return; }
      Accumulate("", "", 0, 0, 0, '0');
      assert s[i..i + 1] == "" + ['0'];
      ok, j, sig := true, i + 1, 1;
      return;
    }
    assert s[i..i] == "";
    while j < |s| && IsDigit(s[j])
      invariant i <= j <= |s| && AllDigits(s[i..j])
      invariant Accumulated(s[i..j], "", mant, sig, exp10)
    {
      Accumulate(s[i..j], "", mant, sig, exp10, s[j]);
      assert s[i..j + 1] == s[i..j] + [s[j]];
      if sig < KEPT {
        mant := mant * 10 + Val(s[j]);
        sig := sig + 1;
      } else {
        exp10 := exp10 + 1;
      }
      j := j + 1;
    }
    RunEndAt(s, i, j);
    ok := true;
  }

  lemma NothingAccumulated()
    ensures Accumulated("", "", 0, 0, 0)
  {}

  method ScanFrac(s: string, i: nat, ghost whole: string, mant0: u64, sig0: nat, exp0: int)
    returns (ok: bool, j: nat, mant: u64, sig: nat, exp10: int)
    requires i <= |s| && Accumulated(whole, "", mant0, sig0, exp0)
    ensures ok == SplitFrac(s, i).Good?
    ensures ok ==> j == SplitFrac(s, i).next && Accumulated(whole, SplitFrac(s, i).part, mant, sig, exp10)
  {
    hide Accumulated;
    ok, j, mant, sig, exp10 := false, i, mant0, sig0, exp0;
    if i >= |s| || s[i] != '.' { ok := true; return; }
    j := i + 1;
    if j >= |s| || !IsDigit(s[j]) { return; }
    assert s[j..j] == "";
    while j < |s| && IsDigit(s[j])
      invariant i < j <= |s| && AllDigits(s[i + 1..j])
      invariant Accumulated(whole, s[i + 1..j], mant, sig, exp10)
    {
      Accumulate(whole, s[i + 1..j], mant, sig, exp10, s[j]);
      assert s[i + 1..j + 1] == s[i + 1..j] + [s[j]];
      if sig < KEPT {
        mant := mant * 10 + Val(s[j]);
        sig := sig + 1;
        exp10 := exp10 - 1;
      }
      j := j + 1;
    }
    RunEndAt(s, i + 1, j);
    ok := true;
  }

  method ScanExp(s: string, i: nat) returns (ok: bool, j: nat, e: int)
    requires i <= |s|
    ensures ok == SplitExp(s, i).Good?
    ensures ok ==> j == SplitExp(s, i).next && e == ScannedExp(SplitExp(s, i).part)
  {
    ok, j, e := false, i, 0;
    if i >= |s| || (s[i] != 'e' && s[i] != 'E') { ok := true; return; }
    j := i + 1;
    var esign := 1;
    if j < |s| && IsSign(s[j]) {
      if s[j] == '-' { esign := -1; }
      j := j + 1;
    }
    if j >= |s| || !IsDigit(s[j]) { return; }
    assert s[i + 1..j] == (if j == i + 1 then "" else [s[i + 1]]);
    var ev: nat;
    j, ev := ScanSaturated(s, j);
    e := if esign > 0 then ev else 0 - ev;
    ok := true;
  }

  method ScanSaturated(s: string, d: nat) returns (j: nat, ev: nat)
    requires d <= |s|
    ensures j == RunEnd(s, d) && ev == Saturated(s[d..j])
  {
    j, ev := d, 0;
    while j < |s| && IsDigit(s[j])
      invariant d <= j <= |s| && AllDigits(s[d..j]) && ev == Saturated(s[d..j])
    {
      assert s[d..j + 1][..j - d] == s[d..j] && s[d..j + 1] == s[d..j] + [s[j]];
      if ev < 100000 { ev := ev * 10 + Val(s[j]); }
      j := j + 1;
    }
    RunEndAt(s, d, j);
  }

  /** cfg_json_scan_num: one pass, digit by digit. */
  method ScanNum(s: string) returns (r: Scanned)
    ensures r == Scan(s)
  {
    hide SplitWhole, SplitFrac, SplitExp, ScannedExp, Legal;
    if |s| == 0 { NoWhole(s); return NoNumber; }
    var neg := s[0] == '-';
    var i := if neg then 1 else 0;
    var ok, w, mant, sig, exp10 := ScanWhole(s, i);
    if !ok { return NoNumber; }
    var f: nat;
    ok, f, mant, sig, exp10 := ScanFrac(s, w, s[i..w], mant, sig, exp10);
    if !ok { return NoNumber; }
    var j: nat, e: int;
    ok, j, e := ScanExp(s, f);
    if !ok { return NoNumber; }
    exp10 := exp10 + e;
    SplitIsLegal(s);
    assert Split1(s).part.whole == s[i..w];
    assert Kept(Split1(s).part) == Decimal(mant, exp10);
    var mag := if mant == 0 then Zero else if exp10 > 400 then Huge else if exp10 < -400 then Zero else Finite(Decimal(mant, exp10));
    r := Number(j, neg, mag);
  }

  lemma NoWhole(s: string)
    requires s == ""
    ensures Scan(s) == NoNumber
  {}
}
