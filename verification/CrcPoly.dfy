/** What the register of Crc32 computes: the remainder of the message, taken as a polynomial
    over GF(2). This is the definition section 8 of RFC 1952 refers to. */
module CrcPoly {
  import opened Crc32

  /** A polynomial over GF(2): the exponents of its terms. */
  type Poly = set<nat>

  /** x^32 + x^26 + x^23 + ... + 1 */
  const GENERATOR: Poly := {32, 26, 23, 22, 16, 12, 11, 10, 8, 7, 5, 4, 2, 1, 0}

  function Plus(p: Poly, q: Poly): Poly { (p - q) + (q - p) }

  /** p * x^n */
  function Raised(p: Poly, n: nat): (r: Poly)
    ensures forall e :: e in r <==> e >= n && e - n in p
  {
    set e | e in p :: e + n
  }

  /** The generator times the polynomial with these coefficients, the highest first. */
  function Multiple(q: seq<bool>): Poly
  {
    if q == [] then {} else Plus(Raised(Multiple(q[..|q| - 1]), 1), if q[|q| - 1] then GENERATOR else {})
  }

  /** `r` is what is left when the generator is divided out of `p`. */
  ghost predicate IsRemainder(p: Poly, r: Poly)
  {
    (forall e :: e in r ==> e < 32) && exists q :: p == Plus(Multiple(q), r)
  }

  // ---- messages and registers as polynomials ---------------------------------------------

  /** The word with only bit `i` set. */
  function Only(i: nat): bv32
    requires i < 32
    decreases i
  {
    if i == 0 then 1 else Only(i - 1) << 1
  }

  predicate Bit(c: bv32, i: nat)
    requires i < 32
  {
    c & Only(i) != 0
  }

  /** The message on the line: its bytes in order, each with its least significant bit first. */
  function MessagePoly(data: seq<byte>): Poly
  {
    if data == [] then {} else Plus(Raised(MessagePoly(data[..|data| - 1]), 8), BytePoly(data[|data| - 1]))
  }

  /** The first `n` bits of a word, least significant first, as coefficients down from x^top. */
  function BitsDown(c: bv32, n: nat, top: nat): (p: Poly)
    requires n <= 32 && n <= top + 1
    ensures forall e :: e in p ==> top + 1 - n <= e <= top
    ensures forall i :: 0 <= i < n ==> (top - i in p <==> Bit(c, i))
  {
    if n == 0 then {} else BitsDown(c, n - 1, top) + if Bit(c, n - 1) then {top + 1 - n} else {}
  }

  function BytePoly(b: byte): Poly { BitsDown(b as bv32, 8, 7) }

  /** A register, its least significant bit the coefficient of x^31. */
  function RegisterPoly(c: bv32): Poly { BitsDown(c, 32, 31) }

  /** x^(n-1) + ... + x + 1 */
  function Below(n: nat): (p: Poly)
    ensures forall e: nat :: e in p <==> e < n
  {
    if n == 0 then {} else Below(n - 1) + {n - 1}
  }

  /** What is divided: the message, followed by 32 zeros, its first 32 bits complemented. */
  function Dividend(data: seq<byte>): Poly
  {
    Plus(Raised(MessagePoly(data), 32), Raised(Below(32), 8 * |data|))
  }

  // ---- bits of words -----------------------------------------------------------------------

  lemma OnlyTable()
    ensures Only(0) == 0x1 && Only(1) == 0x2 && Only(2) == 0x4 && Only(3) == 0x8
    ensures Only(4) == 0x10 && Only(5) == 0x20 && Only(6) == 0x40 && Only(7) == 0x80
    ensures Only(8) == 0x100 && Only(9) == 0x200 && Only(10) == 0x400 && Only(11) == 0x800
    ensures Only(12) == 0x1000 && Only(13) == 0x2000 && Only(14) == 0x4000 && Only(15) == 0x8000
    ensures Only(16) == 0x10000 && Only(17) == 0x20000 && Only(18) == 0x40000 && Only(19) == 0x80000
    ensures Only(20) == 0x100000 && Only(21) == 0x200000 && Only(22) == 0x400000 && Only(23) == 0x800000
    ensures Only(24) == 0x1000000 && Only(25) == 0x2000000 && Only(26) == 0x4000000 && Only(27) == 0x8000000
    ensures Only(28) == 0x10000000 && Only(29) == 0x20000000 && Only(30) == 0x40000000 && Only(31) == 0x80000000
  {}

  lemma OnlyValues()
    ensures forall i :: 0 <= i < 31 ==> Only(i) & 0x8000_0000 == 0
    ensures forall i :: 0 <= i < 32 ==> Only(i) != 0 && Only(i) & (Only(i) - 1) == 0
    ensures Only(0) == 1 && Only(31) == 0x8000_0000
  {
    OnlyTable();
  }

  lemma XorBit(c: bv32, d: bv32, m: bv32)
    requires m != 0 && m & (m - 1) == 0
    ensures (c ^ d) & m != 0 <==> (c & m != 0) != (d & m != 0)
  {}

  lemma HalfBit(c: bv32, m: bv32)
    requires m & 0x8000_0000 == 0
    ensures (c >> 1) & m != 0 <==> c & (m << 1) != 0
  {}

  lemma BitOfXor(c: bv32, d: bv32, i: nat)
    requires i < 32
    ensures Bit(c ^ d, i) <==> Bit(c, i) != Bit(d, i)
  {
    OnlyValues();
    XorBit(c, d, Only(i));
  }

  lemma BitOfHalf(c: bv32, i: nat)
    requires i < 32
    ensures Bit(c >> 1, i) <==> i < 31 && Bit(c, i + 1)
  {
    OnlyValues();
    if i < 31 { HalfBit(c, Only(i)); } else { TopOfHalf(c); }
  }

  lemma TopOfHalf(c: bv32)
    ensures (c >> 1) & 0x8000_0000 == 0
  {}

  lemma GeneratorBits(e: nat)
    requires e < 32
    ensures Bit(POLY, 31 - e) <==> e in GENERATOR
  {
    OnlyTable();
    assert Bit(POLY, 31) && Bit(POLY, 30) && Bit(POLY, 29) && Bit(POLY, 27) && Bit(POLY, 26) && Bit(POLY, 24);
    assert Bit(POLY, 23) && Bit(POLY, 21) && Bit(POLY, 20) && Bit(POLY, 19) && Bit(POLY, 15) && Bit(POLY, 9);
    assert Bit(POLY, 8) && Bit(POLY, 5);
    assert !Bit(POLY, 28) && !Bit(POLY, 25) && !Bit(POLY, 22) && !Bit(POLY, 18) && !Bit(POLY, 17) && !Bit(POLY, 16);
    assert !Bit(POLY, 14) && !Bit(POLY, 13) && !Bit(POLY, 12) && !Bit(POLY, 11) && !Bit(POLY, 10) && !Bit(POLY, 7);
    assert !Bit(POLY, 6) && !Bit(POLY, 4) && !Bit(POLY, 3) && !Bit(POLY, 2) && !Bit(POLY, 1) && !Bit(POLY, 0);
  }

  lemma TopOfGenerator(e: nat)
    requires e > 32
    ensures e !in GENERATOR
  {}

  lemma SamePoly(p: Poly, q: Poly)
    requires forall e: nat :: e in p <==> e in q
    ensures p == q
  {}

  lemma InRegister(c: bv32, e: nat)
    ensures e in RegisterPoly(c) <==> e < 32 && Bit(c, 31 - e)
  {
    if e < 32 { assert 31 - (31 - e) == e; }
  }

  lemma PolyOfXor(c: bv32, d: bv32)
    ensures RegisterPoly(c ^ d) == Plus(RegisterPoly(c), RegisterPoly(d))
  {
    hide RegisterPoly, Bit;
    forall e: nat ensures e in RegisterPoly(c ^ d) <==> e in Plus(RegisterPoly(c), RegisterPoly(d)) {
      InRegister(c ^ d, e);
      InRegister(c, e);
      InRegister(d, e);
      if e < 32 { BitOfXor(c, d, 31 - e); }
    }
    SamePoly(RegisterPoly(c ^ d), Plus(RegisterPoly(c), RegisterPoly(d)));
  }

  lemma PolyOfHalf(c: bv32)
    ensures RegisterPoly(c >> 1) == Raised(RegisterPoly(c), 1) - {32}
  {
    forall e: nat ensures e in RegisterPoly(c >> 1) <==> e in Raised(RegisterPoly(c), 1) - {32} {
      InRegister(c >> 1, e);
      if e > 0 { InRegister(c, e - 1); }
      if e < 32 { BitOfHalf(c, 31 - e); }
    }
    SamePoly(RegisterPoly(c >> 1), Raised(RegisterPoly(c), 1) - {32});
  }

  lemma PolyOfGenerator()
    ensures RegisterPoly(POLY) == GENERATOR - {32} && 32 in GENERATOR
  {
    assert 32 in GENERATOR;
    hide RegisterPoly, Bit, GENERATOR;
    forall e: nat ensures e in RegisterPoly(POLY) <==> e in GENERATOR - {32} {
      InRegister(POLY, e);
      if e < 32 { GeneratorBits(e); } else if e > 32 { TopOfGenerator(e); }
    }
    SamePoly(RegisterPoly(POLY), GENERATOR - {32});
  }

  /** One step of the register: times x, less the generator if that reaches x^32. */
  lemma PolyOfShift(c: bv32)
    ensures RegisterPoly(Shift(c)) == Plus(Raised(RegisterPoly(c), 1), if 31 in RegisterPoly(c) then GENERATOR else {})
  {
    hide RegisterPoly, GENERATOR, Shift, Bit, Raised, Plus;
    PolyOfHalf(c);
    InRegister(c, 31);
    ShiftCases(c);
    var up := Raised(RegisterPoly(c), 1);
    if Bit(c, 0) {
      PolyOfGenerator();
      PolyOfXor(c >> 1, POLY);
      TopCancels(up, GENERATOR);
    } else {
      PlusNothing(up);
    }
  }

  lemma ShiftCases(c: bv32)
    ensures Shift(c) == if Bit(c, 0) then (c >> 1) ^ POLY else c >> 1
  {
    OnlyTable();
    LowBit(c);
    XorZero(c >> 1);
  }

  lemma PlusNothing(p: Poly)
    ensures Plus(p, {}) == p
  {}

  lemma TopCancels(p: Poly, q: Poly)
    requires 32 in p && 32 in q
    ensures Plus(p - {32}, q - {32}) == Plus(p, q)
  {}

  lemma LowBit(c: bv32)
    ensures c & 1 == 1 <==> c & 1 != 0
  {}

  lemma XorZero(c: bv32)
    ensures c ^ 0 == c
  {}

  // ---- sums and products -----------------------------------------------------------------------

  lemma RaisedSum(p: Poly, q: Poly, n: nat)
    ensures Raised(Plus(p, q), n) == Plus(Raised(p, n), Raised(q, n))
  {
    SamePoly(Raised(Plus(p, q), n), Plus(Raised(p, n), Raised(q, n)));
  }

  lemma RaisedTwice(p: Poly, m: nat, n: nat)
    ensures Raised(Raised(p, m), n) == Raised(p, m + n)
  {
    SamePoly(Raised(Raised(p, m), n), Raised(p, m + n));
  }

  lemma CommonTerm(p: Poly, q: Poly, g: Poly)
    ensures Plus(Plus(p, g), Plus(q, g)) == Plus(p, q)
  {}

  lemma PlusAssociates(p: Poly, q: Poly, r: Poly)
    ensures Plus(Plus(p, q), r) == Plus(p, Plus(q, r))
  {}

  lemma PlusSwaps(p: Poly, q: Poly, r: Poly)
    ensures Plus(Plus(p, q), r) == Plus(Plus(p, r), q)
  {}

  // ---- the register holds the remainder ------------------------------------------------------------

  /** What `n` shifts take out, as coefficients. */
  function TakenOut(c: bv32, n: nat): seq<bool>
  {
    if n == 0 then [] else TakenOut(c, n - 1) + [31 in RegisterPoly(Shifted(c, n - 1))]
  }

  lemma {:induction false} ShiftsDivide(q: seq<bool>, c: bv32, n: nat)
    ensures Raised(Plus(Multiple(q), RegisterPoly(c)), n) == Plus(Multiple(q + TakenOut(c, n)), RegisterPoly(Shifted(c, n)))
  {
    hide RegisterPoly, Shift, Plus, Raised, GENERATOR, Multiple;
    var start := Plus(Multiple(q), RegisterPoly(c));
    if n == 0 {
      assert q + [] == q;
      RaisedByNothing(start);
    } else {
      var (k, d) := (q + TakenOut(c, n - 1), Shifted(c, n - 1));
      var bit := 31 in RegisterPoly(d);
      ShiftsDivide(q, c, n - 1);
      RaisedTwice(start, n - 1, 1);
      RaisedSum(Multiple(k), RegisterPoly(d), 1);
      PolyOfShift(d);
      assert q + TakenOut(c, n) == k + [bit];
      MultipleNext(k, bit);
      CommonTerm(Raised(Multiple(k), 1), Raised(RegisterPoly(d), 1), if bit then GENERATOR else {});
    }
  }

  lemma MultipleNext(q: seq<bool>, bit: bool)
    ensures Multiple(q + [bit]) == Plus(Raised(Multiple(q), 1), if bit then GENERATOR else {})
  {
    hide GENERATOR;
    assert (q + [bit])[..|q|] == q;
  }

  lemma RaisedByNothing(p: Poly)
    ensures Raised(p, 0) == p
  {
    SamePoly(Raised(p, 0), p);
  }

  lemma PolyOfMix(c: bv32, b: byte)
    ensures RegisterPoly(Mix(c, b)) == Plus(RegisterPoly(c), Raised(BytePoly(b), 24))
  {
    PolyOfXor(c, b as bv32);
    WideByte(b);
  }

  /** A byte in a register. */
  lemma WideByte(b: byte)
    ensures RegisterPoly(b as bv32) == Raised(BytePoly(b), 24)
  {
    var w := b as bv32;
    forall e: nat ensures e in RegisterPoly(w) <==> e in Raised(BytePoly(b), 24) {
      InRegister(w, e);
      if e < 24 { HighBits(b, 31 - e); } else if e < 32 { assert 31 - e == 7 - (e - 24) + 0; InByte(b, e - 24); }
    }
    SamePoly(RegisterPoly(w), Raised(BytePoly(b), 24));
  }

  lemma InByte(b: byte, e: nat)
    requires e < 8
    ensures e in BytePoly(b) <==> Bit(b as bv32, 7 - e)
  {
    assert 7 - (7 - e) == e;
  }

  lemma HighBits(b: byte, i: nat)
    requires 8 <= i < 32
    ensures !Bit(b as bv32, i)
  {
    OnlyTable();
    HighMask(b, Only(i));
  }

  lemma HighMask(b: byte, m: bv32)
    requires m & 0xFF == 0
    ensures (b as bv32) & m == 0
  {}

  lemma PolyOfOnes()
    ensures RegisterPoly(ONES) == Below(32)
  {
    forall e: nat ensures e in RegisterPoly(ONES) <==> e < 32 {
      InRegister(ONES, e);
      if e < 32 {
        OnlyValues();
        OnesMask(Only(31 - e));
      }
    }
    SamePoly(RegisterPoly(ONES), Below(32));
  }

  lemma OnesMask(m: bv32)
    ensures ONES & m == m
  {}

  /** One byte more. */
  lemma DividendNext(data: seq<byte>)
    requires data != []
    ensures var n := |data| - 1;
            Dividend(data) == Raised(Plus(Dividend(data[..n]), Raised(BytePoly(data[n]), 24)), 8)
  {
    hide Raised, Plus, BytePoly, Below;
    var n := |data| - 1;
    var (m, b, ones) := (MessagePoly(data[..n]), BytePoly(data[n]), Below(32));
    RaisedSum(Raised(m, 8), b, 32);
    RaisedTwice(m, 8, 32);
    RaisedTwice(m, 32, 8);
    RaisedSum(Dividend(data[..n]), Raised(b, 24), 8);
    RaisedSum(Raised(m, 32), Raised(ones, 8 * n), 8);
    RaisedTwice(b, 24, 8);
    RaisedTwice(ones, 8 * n, 8);
    PlusSwaps(Raised(m, 40), Raised(b, 32), Raised(ones, 8 * n + 8));
  }

  /** The quotient the register goes through. */
  function QuotientOf(data: seq<byte>): seq<bool>
  {
    if data == [] then []
    else
      var n := |data| - 1;
      QuotientOf(data[..n]) + TakenOut(Mix(Register(ONES, data[..n]), data[n]), 8)
  }

  lemma {:induction false} RegisterDivides(data: seq<byte>)
    ensures Dividend(data) == Plus(Multiple(QuotientOf(data)), RegisterPoly(Register(ONES, data)))
  {
    hide RegisterPoly, Shift, Shift8, Plus, Raised, Mix, BytePoly;
    if data == [] {
      NothingDivides();
    } else {
      var n := |data| - 1;
      var (front, b) := (data[..n], data[n]);
      var (q, c) := (QuotientOf(front), Register(ONES, front));
      RegisterDivides(front);
      DividendNext(data);
      PlusAssociates(Multiple(q), RegisterPoly(c), Raised(BytePoly(b), 24));
      PolyOfMix(c, b);
      ShiftsDivide(q, Mix(c, b), 8);
      ShiftedEight(Mix(c, b));
    }
  }

  lemma NothingDivides()
    ensures Dividend([]) == Plus(Multiple([]), RegisterPoly(Register(ONES, [])))
  {
    PolyOfOnes();
    RaisedByNothing(Below(32));
    assert Raised({}, 32) == {};
  }

  // ---- there is one remainder -------------------------------------------------------------------------

  lemma GeneratorDegree()
    ensures 32 in GENERATOR && forall e :: e in GENERATOR ==> e <= 32
  {}

  /** The term of a quotient's first coefficient, on its own. */
  function Leading(q: seq<bool>): Poly
    requires q != []
  {
    if q[0] then Raised(GENERATOR, |q| - 1) else {}
  }

  lemma {:induction false} LeadingFirst(q: seq<bool>)
    requires q != []
    ensures Multiple(q) == Plus(Leading(q), Multiple(q[1..]))
  {
    hide GENERATOR, Raised, Plus, Multiple;
    var n := |q| - 1;
    var (front, bit) := (q[..n], q[n]);
    assert q == front + [bit];
    MultipleNext(front, bit);
    var g := if bit then GENERATOR else {};
    if n == 0 {
      assert front == [] && q[1..] == [];
      OneTerm(bit);
    } else {
      LeadingFirst(front);
      assert q[1..] == front[1..] + [bit];
      MultipleNext(front[1..], bit);
      RaisedSum(Leading(front), Multiple(front[1..]), 1);
      PlusAssociates(Raised(Leading(front), 1), Raised(Multiple(front[1..]), 1), g);
      if q[0] { RaisedTwice(GENERATOR, n - 1, 1); } else { assert Raised({}, 1) == {} by { NothingRaised(); } }
    }
  }

  lemma NothingRaised()
    ensures Raised({}, 1) == {}
  {}

  lemma OneTerm(bit: bool)
    ensures Plus(Raised(Multiple([]), 1), if bit then GENERATOR else {}) == Plus(Leading([bit]), Multiple([]))
  {
    hide GENERATOR;
    RaisedByNothing(GENERATOR);
  }

  lemma {:induction false} MultipleDegree(q: seq<bool>)
    ensures forall e :: e in Multiple(q) ==> e < |q| + 32
    ensures q != [] ==> (|q| + 31 in Multiple(q) <==> q[0])
  {
    if q != [] {
      hide GENERATOR, Multiple;
      LeadingFirst(q);
      MultipleDegree(q[1..]);
      GeneratorDegree();
    }
  }

  lemma LeadingCancels(p: Poly, q: Poly, r: Poly, s: Poly, t: Poly)
    requires Plus(Plus(t, p), r) == Plus(Plus(t, q), s)
    ensures Plus(p, r) == Plus(q, s)
  {
    forall e: nat ensures e in Plus(p, r) <==> e in Plus(q, s) {
      assert e in Plus(Plus(t, p), r) <==> e in Plus(Plus(t, q), s);
    }
    SamePoly(Plus(p, r), Plus(q, s));
  }

  /** Division leaves one remainder. */
  lemma {:induction false} RemainderIsUnique(k: seq<bool>, l: seq<bool>, r: Poly, s: Poly)
    requires (forall e :: e in r ==> e < 32) && (forall e :: e in s ==> e < 32)
    requires Plus(Multiple(k), r) == Plus(Multiple(l), s)
    ensures r == s
    decreases |k| + |l|, |l|
  {
    hide GENERATOR, Multiple;
    MultipleDegree(k);
    MultipleDegree(l);
    if |k| < |l| {
      RemainderIsUnique(l, k, s, r);
    } else if k == [] {
      NoQuotient(r);
      NoQuotient(s);
    } else {
      var top := |k| + 31;
      assert top in Plus(Multiple(k), r) <==> k[0];
      LeadingFirst(k);
      if |k| == |l| {
        assert top in Plus(Multiple(l), s) <==> l[0];
        LeadingFirst(l);
        LeadingCancels(Multiple(k[1..]), Multiple(l[1..]), r, s, Leading(k));
        RemainderIsUnique(k[1..], l[1..], r, s);
      } else {
        assert top !in Plus(Multiple(l), s);
        NothingPlus(Multiple(k[1..]));
        RemainderIsUnique(k[1..], l, r, s);
      }
    }
  }

  lemma NothingPlus(p: Poly)
    ensures Plus({}, p) == p
  {}

  lemma NoQuotient(r: Poly)
    ensures Plus(Multiple([]), r) == r
  {
    NothingPlus(r);
  }

  lemma RegisterDegree(c: bv32)
    ensures forall e :: e in RegisterPoly(c) ==> e < 32
  {
    forall e | e in RegisterPoly(c) ensures e < 32 { InRegister(c, e); }
  }

  lemma SameRegister(c: bv32, d: bv32)
    requires RegisterPoly(c) == RegisterPoly(d)
    ensures c == d
  {
    forall i | 0 <= i < 32 ensures Bit(c, i) == Bit(d, i) {
      assert 31 - (31 - i) == i;
      InRegister(c, 31 - i);
      InRegister(d, 31 - i);
    }
    BitsAreAll(c, d);
  }

  /** What cfg_crc32 returns is the complement of the remainder of the message modulo the CRC-32
      polynomial, and nothing else is. */
  lemma CrcIsRemainder(data: seq<byte>, c: bv32)
    ensures Crc(data) == c <==> IsRemainder(Dividend(data), RegisterPoly(c ^ ONES))
  {
    hide RegisterPoly, Multiple, Plus, Dividend, Register;
    var r := Register(ONES, data);
    RegisterDivides(data);
    RegisterDegree(r);
    RegisterDegree(c ^ ONES);
    Complement(r, c);
    if IsRemainder(Dividend(data), RegisterPoly(c ^ ONES)) {
      var q :| Dividend(data) == Plus(Multiple(q), RegisterPoly(c ^ ONES));
      RemainderIsUnique(q, QuotientOf(data), RegisterPoly(c ^ ONES), RegisterPoly(r));
      SameRegister(c ^ ONES, r);
    }
  }

  lemma Complement(r: bv32, c: bv32)
    ensures r ^ ONES == c <==> r == c ^ ONES
  {}

  lemma BitsAreAll(c: bv32, d: bv32)
    requires forall i :: 0 <= i < 32 ==> Bit(c, i) == Bit(d, i)
    ensures c == d
  {
    hide Agree, Only;
    LowBitsAgree(c, d, 31);
    OnlyValues();
    assert Bit(c, 31) == Bit(d, 31);
    OneMoreAgrees(c, d, 0x8000_0000);
    AllAgree(c, d);
  }

  lemma {:induction false} LowBitsAgree(c: bv32, d: bv32, n: nat)
    requires n < 32 && forall i :: 0 <= i < n ==> Bit(c, i) == Bit(d, i)
    ensures Agree(c, d, Only(n) - 1)
  {
    hide Agree;
    if n == 0 {
      NoneAgree(c, d);
    } else {
      LowBitsAgree(c, d, n - 1);
      OnlyValues();
      assert Bit(c, n - 1) == Bit(d, n - 1);
      OneMoreAgrees(c, d, Only(n - 1));
    }
  }

  lemma NoneAgree(c: bv32, d: bv32)
    ensures Agree(c, d, 1 - 1)
  {}

  lemma OneMoreAgrees(c: bv32, d: bv32, m: bv32)
    requires m != 0 && m & (m - 1) == 0 && Agree(c, d, m - 1) && (c & m != 0) == (d & m != 0)
    ensures Agree(c, d, (m << 1) - 1)
  {}

  lemma AllAgree(c: bv32, d: bv32)
    requires Agree(c, d, (0x8000_0000 << 1) - 1)
    ensures c == d
  {}
}
