/** The bitwise CRC-32 of control/Src/config_codec.c, and what it is good for: a change
    confined to four consecutive bytes never goes unnoticed. */
module Crc32 {
  import opened Words

  type byte = bv8

  const POLY: bv32 := 0xEDB88320
  const ONES: bv32 := 0xFFFF_FFFF

  function Shift(c: bv32): bv32 { (c >> 1) ^ (if c & 1 == 1 then POLY else 0) }

  function Shift8(c: bv32): bv32 { Shift(Shift(Shift(Shift(Shift(Shift(Shift(Shift(c)))))))) }

  function Mix(c: bv32, b: byte): bv32 { c ^ (b as bv32) }

  function Feed(c: bv32, b: byte): bv32 { Shift8(Mix(c, b)) }

  function Register(c: bv32, data: seq<byte>): bv32
  {
    if data == [] then c else Feed(Register(c, data[..|data| - 1]), data[|data| - 1])
  }

  function Crc(data: seq<byte>): bv32 { Register(ONES, data) ^ ONES }

  function Shifted(c: bv32, n: nat): bv32 { if n == 0 then c else Shift(Shifted(c, n - 1)) }

  /** The code selects the polynomial with a mask, not a branch. */
  function MaskedShift(c: bv32): bv32 { (c >> 1) ^ (POLY & (0 - (c & 1))) }

  lemma MaskedIsShift(c: bv32)
    ensures MaskedShift(c) == Shift(c)
  {}

  lemma ShiftedEight(c: bv32)
    ensures Shifted(c, 8) == Shift8(c)
  {
    var four := Shift(Shift(Shift(Shift(c))));
    assert Shifted(c, 1) == Shift(c) && Shifted(c, 2) == Shift(Shift(c));
    assert Shifted(c, 3) == Shift(Shift(Shift(c))) && Shifted(c, 4) == four;
    assert Shifted(c, 5) == Shift(four) && Shifted(c, 6) == Shift(Shift(four));
    assert Shifted(c, 7) == Shift(Shift(Shift(four)));
  }

  // ---- one register update, run backwards ------------------------------------------

  function UnshiftOdd(c: bv32): bv32 { ((c ^ POLY) << 1) | 1 }

  function UnshiftEven(c: bv32): bv32 { c << 1 }

  function Unshift(c: bv32): bv32
  {
    if c & 0x8000_0000 != 0 then UnshiftOdd(c) else UnshiftEven(c)
  }

  function Unshift4(c: bv32): bv32 { Unshift(Unshift(Unshift(Unshift(c)))) }

  lemma UnshiftShift(c: bv32)
    ensures Unshift(Shift(c)) == c
  {}

  lemma Unshift8Shift8(c: bv32)
    ensures Unshift4(Unshift4(Shift8(c))) == c
  {
    var c1 := Shift(c);
    var c2 := Shift(c1);
    var c3 := Shift(c2);
    var c4 := Shift(c3);
    var c5 := Shift(c4);
    var c6 := Shift(c5);
    var c7 := Shift(c6);
    UnshiftShift(c7);
    UnshiftShift(c6);
    UnshiftShift(c5);
    UnshiftShift(c4);
    UnshiftShift(c3);
    UnshiftShift(c2);
    UnshiftShift(c1);
    UnshiftShift(c);
  }

  /** Two words agree on the bits of a mask. */
  predicate Agree(c: bv32, d: bv32, mask: bv32) { c & mask == d & mask }

  function Up(mask: bv32): bv32 { (mask << 1) | 1 }

  function Up4(mask: bv32): bv32 { Up(Up(Up(Up(mask)))) }

  lemma OddAgrees(c: bv32, d: bv32, mask: bv32)
    requires Agree(c, d, mask)
    ensures Agree(UnshiftOdd(c), UnshiftOdd(d), Up(mask))
  {}

  lemma EvenAgrees(c: bv32, d: bv32, mask: bv32)
    requires Agree(c, d, mask)
    ensures Agree(UnshiftEven(c), UnshiftEven(d), Up(mask))
  {}

  lemma SameTopBit(c: bv32, d: bv32, mask: bv32)
    requires Agree(c, d, mask) && mask & 0x8000_0000 != 0
    ensures (c & 0x8000_0000 != 0) == (d & 0x8000_0000 != 0)
  {}

  /** As long as the top bit is among the bits two registers share, the previous
      registers share the same bits one place higher, and the bottom one as well. */
  lemma UnshiftAgrees(c: bv32, d: bv32, mask: bv32)
    requires Agree(c, d, mask) && mask & 0x8000_0000 != 0
    ensures Agree(Unshift(c), Unshift(d), Up(mask))
  {
    SameTopBit(c, d, mask);
    OddAgrees(c, d, mask);
    EvenAgrees(c, d, mask);
  }

  lemma Unshift4Agrees(c: bv32, d: bv32, mask: bv32)
    requires Agree(c, d, mask) && mask & 0xF000_0000 == 0xF000_0000
    ensures Agree(Unshift4(c), Unshift4(d), Up4(mask))
  {
    UnshiftAgrees(c, d, mask);
    var c1, d1, m1 := Unshift(c), Unshift(d), Up(mask);
    UnshiftAgrees(c1, d1, m1);
    var c2, d2, m2 := Unshift(c1), Unshift(d1), Up(m1);
    UnshiftAgrees(c2, d2, m2);
    var c3, d3, m3 := Unshift(c2), Unshift(d2), Up(m2);
    UnshiftAgrees(c3, d3, m3);
  }

  /** One byte backwards: from agreement after the byte to agreement before it. */
  lemma UnfeedAgrees(c: bv32, a: byte, d: bv32, b: byte, mask: bv32, mid: bv32, out: bv32)
    requires Agree(Feed(c, a), Feed(d, b), mask)
    requires mid == Up4(mask) && out == Up4(mid)
    requires mask & 0xF000_0000 == 0xF000_0000 && mid & 0xF000_0000 == 0xF000_0000
    ensures Agree(Mix(c, a), Mix(d, b), out)
  {
    Unshift4Agrees(Feed(c, a), Feed(d, b), mask);
    Unshift4Agrees(Unshift4(Feed(c, a)), Unshift4(Feed(d, b)), mid);
    Unshift8Shift8(Mix(c, a));
    Unshift8Shift8(Mix(d, b));
  }

  /** Mixing in a byte leaves the upper 24 bits alone. */
  lemma UnmixAgrees(c: bv32, a: byte, d: bv32, b: byte, mask: bv32)
    requires Agree(Mix(c, a), Mix(d, b), mask) && mask & 0xFF == 0
    ensures Agree(c, d, mask)
  {}

  lemma NarrowAgrees(c: bv32, d: bv32, mask: bv32, inner: bv32)
    requires Agree(c, d, mask) && mask & inner == inner
    ensures Agree(c, d, inner)
  {}

  /** From one register, bytes that agree after mixing are the same byte. */
  lemma SameByte(c: bv32, a: byte, b: byte)
    requires Agree(Mix(c, a), Mix(c, b), 0xFF)
    ensures a == b
  {}

  lemma UnfeedEqual(c: bv32, a: byte, d: bv32, b: byte)
    requires Feed(c, a) == Feed(d, b)
    ensures Mix(c, a) == Mix(d, b)
  {
    Unshift8Shift8(Mix(c, a));
    Unshift8Shift8(Mix(d, b));
  }

  lemma FeedInjective(c: bv32, d: bv32, b: byte)
    requires Feed(c, b) == Feed(d, b)
    ensures c == d
  {
    UnfeedEqual(c, b, d, b);
    Unmix(c, d, b);
  }

  lemma Unmix(c: bv32, d: bv32, b: byte)
    requires Mix(c, b) == Mix(d, b)
    ensures c == d
  {}

  lemma EqualAgrees(c: bv32, d: bv32, mask: bv32)
    requires c == d
    ensures Agree(c, d, mask)
  {}

  function Feed4(c: bv32, w: seq<byte>): bv32
    requires |w| == 4
  {
    Feed(Feed(Feed(Feed(c, w[0]), w[1]), w[2]), w[3])
  }

  /** Four bytes fill the whole register: no two words lead to one result. */
  lemma Feed4Injective(c: bv32, v: seq<byte>, w: seq<byte>)
    requires |v| == |w| == 4 && Feed4(c, v) == Feed4(c, w)
    ensures v == w
  {
    var c1, d1 := Feed(c, v[0]), Feed(c, w[0]);
    var c2, d2 := Feed(c1, v[1]), Feed(d1, w[1]);
    var c3, d3 := Feed(c2, v[2]), Feed(d2, w[2]);
    UnfeedEqual(c3, v[3], d3, w[3]);
    EqualAgrees(Mix(c3, v[3]), Mix(d3, w[3]), 0xFFFF_FF00);
    UnmixAgrees(c3, v[3], d3, w[3], 0xFFFF_FF00);
    UnfeedAgrees(c2, v[2], d2, w[2], 0xFFFF_FF00, 0xFFFF_F00F, 0xFFFF_00FF);
    NarrowAgrees(Mix(c2, v[2]), Mix(d2, w[2]), 0xFFFF_00FF, 0xFFFF_0000);
    UnmixAgrees(c2, v[2], d2, w[2], 0xFFFF_0000);
    UnfeedAgrees(c1, v[1], d1, w[1], 0xFFFF_0000, 0xFFF0_000F, 0xFF00_00FF);
    NarrowAgrees(Mix(c1, v[1]), Mix(d1, w[1]), 0xFF00_00FF, 0xFF00_0000);
    UnmixAgrees(c1, v[1], d1, w[1], 0xFF00_0000);
    UnfeedAgrees(c, v[0], c, w[0], 0xFF00_0000, 0xF000_000F, 0x0000_00FF);
    SameByte(c, v[0], w[0]);
    NarrowAgrees(Mix(c1, v[1]), Mix(d1, w[1]), 0xFF00_00FF, 0x0000_00FF);
    SameByte(c1, v[1], w[1]);
    NarrowAgrees(Mix(c2, v[2]), Mix(d2, w[2]), 0xFFFF_00FF, 0x0000_00FF);
    SameByte(c2, v[2], w[2]);
    EqualAgrees(Mix(c3, v[3]), Mix(d3, w[3]), 0x0000_00FF);
    SameByte(c3, v[3], w[3]);
  }

  // ---- whole messages ----------------------------------------------------------------

  lemma {:induction false} RegisterAppend(c: bv32, a: seq<byte>, b: seq<byte>)
    ensures Register(c, a + b) == Register(Register(c, a), b)
    decreases |b|
  {
    if b == [] {
      assert a + b == a;
    } else {
      var n := |b| - 1;
      assert (a + b)[..|a + b| - 1] == a + b[..n];
      RegisterAppend(c, a, b[..n]);
    }
  }

  lemma {:induction false} RegisterInjective(c: bv32, d: bv32, data: seq<byte>)
    requires Register(c, data) == Register(d, data)
    ensures c == d
  {
    if data != [] {
      var n := |data| - 1;
      FeedInjective(Register(c, data[..n]), Register(d, data[..n]), data[n]);
      RegisterInjective(c, d, data[..n]);
    }
  }

  lemma RegisterOfFour(c: bv32, w: seq<byte>)
    requires |w| == 4
    ensures Register(c, w) == Feed4(c, w)
  {
    hide Feed;
    assert w[..3][..2] == w[..2] && w[..2][..1] == w[..1] && w[..1][..0] == [];
    assert Register(c, w[..1]) == Feed(c, w[0]);
    assert Register(c, w[..2]) == Feed(Register(c, w[..1]), w[1]);
    assert Register(c, w[..3]) == Feed(Register(c, w[..2]), w[2]);
  }

  lemma UnmaskResult(c: bv32, d: bv32)
    requires c ^ ONES == d ^ ONES
    ensures c == d
  {}

  /** Two messages of one length that differ only inside four consecutive bytes never
      have the same CRC. */
  lemma WindowDetected(a: seq<byte>, b: seq<byte>, k: nat)
    requires |a| == |b| && k + 4 <= |a|
    requires forall i :: 0 <= i < |a| && !(k <= i < k + 4) ==> a[i] == b[i]
    requires Crc(a) == Crc(b)
    ensures a == b
  {
    UnmaskResult(Register(ONES, a), Register(ONES, b));
    var (p, v, s) := (a[..k], a[k..k + 4], a[k + 4..]);
    var w := b[k..k + 4];
    assert a == p + v + s;
    assert b[..k] == p && b[k + 4..] == s && b == p + w + s;
    var c := Register(ONES, p);
    RegisterAppend(ONES, p + v, s);
    RegisterAppend(ONES, p, v);
    RegisterAppend(ONES, p + w, s);
    RegisterAppend(ONES, p, w);
    RegisterInjective(Register(c, v), Register(c, w), s);
    RegisterOfFour(c, v);
    RegisterOfFour(c, w);
    Feed4Injective(c, v, w);
  }

  // ---- the CRC of a byte buffer --------------------------------------------------------

  function Bits(b: seq<u8>): (r: seq<byte>)
    ensures |r| == |b|
  {
    seq(|b|, i requires 0 <= i < |b| => b[i] as byte)
  }

  function Number(c: bv32): u32 { c as int }

  function CrcOf(b: seq<u8>): u32 { Number(Crc(Bits(b))) }

  lemma BitsOfByte(x: u8, y: u8)
    requires x as byte == y as byte
    ensures x == y
  {
    ByteBack(x);
    ByteBack(y);
  }

  lemma NumberBack(c: bv32)
    ensures Number(c) as bv32 == c
  {}

  lemma SameNumber(c: bv32, d: bv32)
    requires Number(c) == Number(d)
    ensures c == d
  {
    NumberBack(c);
    NumberBack(d);
  }

  /** Two buffers of one length that differ only inside four consecutive bytes never
      have the same CRC. */
  lemma WindowNeverMissed(a: seq<u8>, b: seq<u8>, k: nat)
    requires |a| == |b| && k + 4 <= |a|
    requires forall i :: 0 <= i < |a| && !(k <= i < k + 4) ==> a[i] == b[i]
    requires CrcOf(a) == CrcOf(b)
    ensures a == b
  {
    SameNumber(Crc(Bits(a)), Crc(Bits(b)));
    WindowDetected(Bits(a), Bits(b), k);
    forall i | 0 <= i < |a| ensures a[i] == b[i] {
      assert Bits(a)[i] == Bits(b)[i];
      BitsOfByte(a[i], b[i]);
    }
  }

  lemma RegisterNext(c: bv32, bits: seq<byte>, i: nat)
    requires i < |bits|
    ensures Register(c, bits[..i + 1]) == Feed(Register(c, bits[..i]), bits[i])
  {
    assert bits[..i + 1][..i] == bits[..i];
  }

  /** cfg_crc32 over the first `len` bytes. */
  method ComputeCrc(data: array<u8>, len: nat) returns (crc: u32)
    requires len <= data.Length
    ensures crc == CrcOf(data[..len])
  {
    hide MaskedShift, Shift, Shift8, Mix, Number;
    ghost var bits := Bits(data[..len]);
    var c := ONES;
    var i := 0;
    while i < len
      invariant 0 <= i <= len
      invariant c == Register(ONES, bits[..i])
    {
      RegisterNext(ONES, bits, i);
      c := Mix(c, data[i] as byte);
      ghost var mixed := c;
      var bit := 0;
      while bit < 8
        invariant 0 <= bit <= 8
        invariant c == Shifted(mixed, bit)
      {
        MaskedIsShift(c);
        c := MaskedShift(c);
        bit := bit + 1;
      }
      ShiftedEight(mixed);
      i := i + 1;
    }
    assert bits[..len] == bits;
    c := c ^ ONES;
    crc := Number(c);
  }
}
