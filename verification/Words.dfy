/** Fixed-width unsigned words of the firmware, as subset types of int, with the
    modular arithmetic and the little-endian packing the modules share. */
module Words {
  const POW32: int := 0x1_0000_0000
  const POW64: int := 0x1_0000_0000_0000_0000

  type u8 = x: int | 0 <= x < 256
  type u16 = x: int | 0 <= x < 0x1_0000
  type u32 = x: int | 0 <= x < POW32
  type u64 = x: int | 0 <= x < POW64

  /** A product that proofs can keep folded. */
  function Times(a: real, b: real): real { a * b }

  datatype Option<T> = None | Some(value: T)

  function Min(a: int, b: int): (m: int) ensures a >= 0 && b >= 0 ==> m >= 0 { if a < b then a else b }

  /** The 32-bit value of an unbounded clock or sum. */
  function Wrap32(x: int): (r: u32) { x % POW32 }

  /** `a - b` as the hardware computes it on uint32_t. */
  function Sub32(a: u32, b: u32): (r: u32) { (a - b) % POW32 }

  /** A deadline has passed: it lies less than half a wrap behind the clock. */
  predicate Due(now: u32, next: u32) { Sub32(now, next) < 0x8000_0000 }

  lemma Wraps(x: int, k: int)
    ensures Wrap32(x + k * POW32) == Wrap32(x)
  {}

  lemma WrapAdd(x: int, d: int)
    ensures Wrap32(Wrap32(x) + d) == Wrap32(x + d)
  {
    assert x + d == Wrap32(x) + d + x / POW32 * POW32;
    Wraps(Wrap32(x) + d, x / POW32);
  }

  lemma SubOfWraps(x: int, y: int)
    ensures Sub32(Wrap32(x), Wrap32(y)) == Wrap32(x - y)
  {
    var (p, q) := (x / POW32, y / POW32);
    assert x - y == (Wrap32(x) - Wrap32(y)) + (p - q) * POW32;
    Wraps(Wrap32(x) - Wrap32(y), p - q);
  }

  /** A deadline set to a moment and a period later, looked at some time after it was set. */
  lemma DueAfter(now: u32, period: nat, d: nat)
    requires period < 0x8000_0000 && d < 0x8000_0000
    ensures Due(Wrap32(now + d), Wrap32(now + period)) <==> d >= period
  {
    SubOfWraps(now + d, now + period);
  }

  lemma Append3(a: string, b: string, c: string)
    ensures (a + b) + c == a + (b + c)
  {}

  /** The 32-bit difference of two clock readings is the elapsed time, as long as
      less than one full wrap lies between them. */
  lemma ElapsedIsExact(now: nat, past: nat)
    requires past <= now < past + POW32
    ensures Sub32(Wrap32(now), Wrap32(past)) == now - past
  {
    assert (now % POW32 - past % POW32) % POW32 == now - past by {
      var q, p := now / POW32, past / POW32;
      assert now == q * POW32 + now % POW32 && past == p * POW32 + past % POW32;
      assert q == p || q == p + 1;
    }
  }

  function Pow256(n: nat): (r: nat) ensures r >= 1 { if n == 0 then 1 else 256 * Pow256(n - 1) }

  function LeBytes(v: nat, n: nat): (b: seq<u8>)
    ensures |b| == n
  {
    if n == 0 then [] else [v % 256] + LeBytes(v / 256, n - 1)
  }

  function LeValue(b: seq<u8>): (v: nat) { if b == [] then 0 else b[0] + 256 * LeValue(b[1..]) }

  lemma {:induction false} LeRoundTrip(v: nat, n: nat)
    requires v < Pow256(n)
    ensures LeValue(LeBytes(v, n)) == v
  {
    if n > 0 {
      LeRoundTrip(v / 256, n - 1);
      assert LeBytes(v, n)[1..] == LeBytes(v / 256, n - 1);
    }
  }

  lemma DivDiv(v: nat, d: nat)
    requires d > 0
    ensures v / 256 / d == v / (256 * d)
  {
    var (q, t) := (v / 256 / d, v / 256 % d);
    assert v / 256 == q * d + t;
    assert v == q * (256 * d) + (256 * t + v % 256);
    Quotient(q, 256 * d, 256 * t + v % 256);
  }

  lemma Quotient(q: nat, d: nat, r: nat)
    requires r < d
    ensures (q * d + r) / d == q
  {
    var x := q * d + r;
    var p := x / d;
    assert x == p * d + x % d;
    if p < q { MulLe(p + 1, q, d); }
    if q < p { MulLe(q + 1, p, d); }
  }

  lemma MulLe(a: int, b: int, d: nat)
    requires a <= b
    ensures a * d <= b * d
  {
    assert (b - a) * d >= 0;
  }

  /** Byte `k` of a word, the least significant byte first. */
  lemma {:induction false} ByteOf(v: nat, n: nat, k: nat)
    requires k < n
    ensures LeBytes(v, n)[k] == v / Pow256(k) % 256
  {
    if k > 0 {
      ByteOf(v / 256, n - 1, k - 1);
      DivDiv(v, Pow256(k - 1));
    }
  }

  lemma ByteBack(x: int)
    requires 0 <= x < 256
    ensures (x as bv8) as int == x
  {
    if x < 16 {
    } else if x < 128 {
    } else {
    }
  }
}
