/** The packed config record of control/Src/config_codec.c. Floats and signed bytes are
    carried as their bit patterns, so NaN and signed zero are ordinary values here. */
module ConfigCodec {
  import opened Words

  datatype Primitives = Primitives(vBulk: u32, vBulkCons: u32, vFloat: u32, vFloatCons: u32, vLimp: u32)

  datatype Globals = Globals(
    cells: u8, bankAh: u32, maxChargeW: u32, rampWps: u32, tailW: u32,
    tailHoldS: u16, vclampS: u16, cvHoldMin: u16, chargeMaxMin: u16, warmupS: u16,
    warmupCoolantC: u32, socTarget: u8, skipBulkV: u32, skipBulkSoc: u8,
    rotorRatedV: u32, rotorMaxV: u32, fullField48: bool, limpV: u32, limpCapW: u32,
    battTempSrc: u8, requireBattTemp: bool)

  datatype Limits = Limits(batteryC: u32, wiringA: u32, alternatorA: u32)

  datatype Profile = Profile(
    id: u8, flags: u8, cvRef: u8, restRef: u8,
    cvTargetV: u32, exitAtCv: bool, restMode: u8, restV: u32, restCapW: u32,
    revertV: u32, revertHoldS: u16, socRevert: u8, ahRevert: u32)

  const PROFILES: nat := 7
  type ProfileTable = s: seq<Profile> | |s| == PROFILES
    witness seq(PROFILES, i => Profile(0, 0, 0, 0, 0, false, 0, 0, 0, 0, 0, 0, 0))

  datatype Config = Config(
    prim: Primitives, globals: Globals, limits: Limits, profiles: ProfileTable, active: u8)

  const HEADER: nat := 16
  const PAYLOAD: nat := 292
  const BODY: nat := HEADER + PAYLOAD
  const RECORD: nat := BODY + 4
  const SCHEMA: u16 := 2
  const PAYLOAD_LEN: u16 := 292

  // ---- little-endian scalars ---------------------------------------------------------

  function Flag(b: bool): u8 { if b then 1 else 0 }

  function Join32(b0: u8, b1: u8, b2: u8, b3: u8): u32 { b0 + 0x100 * b1 + 0x1_0000 * b2 + 0x100_0000 * b3 }

  function Join16(b0: u8, b1: u8): u16 { b0 + 0x100 * b1 }

  function Le32(v: u32): (b: seq<u8>) ensures |b| == 4 { [v % 0x100, v / 0x100 % 0x100, v / 0x1_0000 % 0x100, v / 0x100_0000] }

  function Le16(v: u16): (b: seq<u8>) ensures |b| == 2 { [v % 0x100, v / 0x100] }

  function At32(b: seq<u8>, o: nat): u32
    requires o + 4 <= |b|
  {
    Join32(b[o], b[o + 1], b[o + 2], b[o + 3])
  }

  function At16(b: seq<u8>, o: nat): u16
    requires o + 2 <= |b|
  {
    Join16(b[o], b[o + 1])
  }

  lemma Le32RoundTrip(v: u32)
    ensures At32(Le32(v), 0) == v
  {
    var (a, b) := (v / 0x100, v / 0x1_0000);
    assert a / 0x100 == b && b / 0x100 == v / 0x100_0000;
  }

  /** A scalar reads back wherever its bytes lie. */
  lemma Le32LiesAt(b: seq<u8>, o: nat, v: u32)
    requires LiesAt(b, o, Le32(v))
    ensures At32(b, o) == v
  {
    Le32RoundTrip(v);
    assert b[o] == Le32(v)[0] && b[o + 1] == Le32(v)[1] && b[o + 2] == Le32(v)[2] && b[o + 3] == Le32(v)[3];
  }

  lemma Le16LiesAt(b: seq<u8>, o: nat, v: u16)
    requires LiesAt(b, o, Le16(v))
    ensures At16(b, o) == v
  {
    assert b[o] == Le16(v)[0] && b[o + 1] == Le16(v)[1];
  }

  lemma SameWord(a: seq<u8>, b: seq<u8>, o: nat)
    requires o + 4 <= |a| && o + 4 <= |b| && At32(a, o) == At32(b, o)
    ensures a[o] == b[o] && a[o + 1] == b[o + 1] && a[o + 2] == b[o + 2] && a[o + 3] == b[o + 3]
  {
    WordBytes(a, o);
    WordBytes(b, o);
  }

  lemma WordBytes(a: seq<u8>, o: nat)
    requires o + 4 <= |a|
    ensures Le32(At32(a, o)) == a[o..o + 4]
  {
    var v := At32(a, o);
    var top: nat := a[o + 3];
    var upper: nat := a[o + 2] + 0x100 * top;
    var rest: nat := a[o + 1] + 0x100 * upper;
    assert v == a[o] + 0x100 * rest;
    assert v / 0x100 == rest && v / 0x1_0000 == upper && v / 0x100_0000 == top;
  }

  // ---- the layout, block by block -----------------------------------------------------

  function PrimitivesBytes(p: Primitives): (b: seq<u8>)
    ensures |b| == 20
  {
    Le32(p.vBulk) + Le32(p.vBulkCons) + Le32(p.vFloat) + Le32(p.vFloatCons) + Le32(p.vLimp)
  }

  function PrimitivesAt(b: seq<u8>, o: nat): Primitives
    requires o + 20 <= |b|
  {
    Primitives(At32(b, o), At32(b, o + 4), At32(b, o + 8), At32(b, o + 12), At32(b, o + 16))
  }

  function GlobalsHead(g: Globals): (b: seq<u8>)
    ensures |b| == 27
  {
    [g.cells] + Le32(g.bankAh) + Le32(g.maxChargeW) + Le32(g.rampWps) + Le32(g.tailW) +
    Le16(g.tailHoldS) + Le16(g.vclampS) + Le16(g.cvHoldMin) + Le16(g.chargeMaxMin) + Le16(g.warmupS)
  }

  function GlobalsRest(g: Globals): (b: seq<u8>)
    ensures |b| == 27
  {
    Le32(g.warmupCoolantC) + [g.socTarget] + Le32(g.skipBulkV) + [g.skipBulkSoc] +
    Le32(g.rotorRatedV) + Le32(g.rotorMaxV) + [Flag(g.fullField48)] + Le32(g.limpV) + Le32(g.limpCapW)
  }

  /** The globals up to the coolant gate, the rest of them zero. */
  function GlobalsFrontAt(b: seq<u8>, o: nat): Globals
    requires o + 27 <= |b|
  {
    Globals(b[o], At32(b, o + 1), At32(b, o + 5), At32(b, o + 9), At32(b, o + 13),
            At16(b, o + 17), At16(b, o + 19), At16(b, o + 21), At16(b, o + 23), At16(b, o + 25),
            0, 0, 0, 0, 0, 0, false, 0, 0, 0, false)
  }

  function GlobalsRestAt(g: Globals, b: seq<u8>, o: nat): Globals
    requires o + 27 <= |b|
  {
    g.(warmupCoolantC := At32(b, o), socTarget := b[o + 4], skipBulkV := At32(b, o + 5),
       skipBulkSoc := b[o + 9], rotorRatedV := At32(b, o + 10), rotorMaxV := At32(b, o + 14),
       fullField48 := b[o + 18] != 0, limpV := At32(b, o + 19), limpCapW := At32(b, o + 23))
  }

  /** The bytes of the last two members lie apart, at the payload's end. */
  function GlobalsAt(b: seq<u8>, o: nat, src: u8, required: u8): Globals
    requires o + 54 <= |b|
  {
    GlobalsRestAt(GlobalsFrontAt(b, o), b, o + 27).(battTempSrc := src, requireBattTemp := required != 0)
  }

  function LimitsBytes(l: Limits): (b: seq<u8>)
    ensures |b| == 12
  {
    Le32(l.batteryC) + Le32(l.wiringA) + Le32(l.alternatorA)
  }

  function LimitsAt(b: seq<u8>, o: nat): Limits
    requires o + 12 <= |b|
  {
    Limits(At32(b, o), At32(b, o + 4), At32(b, o + 8))
  }

  function ProfileBytes(p: Profile): (b: seq<u8>)
    ensures |b| == 29
  {
    [p.id] + [p.flags] + [p.cvRef] + [p.restRef] + Le32(p.cvTargetV) + [Flag(p.exitAtCv)] + [p.restMode] +
    Le32(p.restV) + Le32(p.restCapW) + Le32(p.revertV) + Le16(p.revertHoldS) + [p.socRevert] + Le32(p.ahRevert)
  }

  function ProfileAt(b: seq<u8>, o: nat): Profile
    requires o + 29 <= |b|
  {
    Profile(b[o], b[o + 1], b[o + 2], b[o + 3], At32(b, o + 4), b[o + 8] != 0, b[o + 9],
            At32(b, o + 10), At32(b, o + 14), At32(b, o + 18), At16(b, o + 22), b[o + 24], At32(b, o + 25))
  }

  function Concat(blocks: seq<seq<u8>>): (b: seq<u8>)
  {
    if blocks == [] then [] else Concat(blocks[..|blocks| - 1]) + blocks[|blocks| - 1]
  }

  function Blocks(ps: seq<Profile>): (r: seq<seq<u8>>)
    ensures |r| == |ps| && forall i :: 0 <= i < |r| ==> r[i] == ProfileBytes(ps[i])
  {
    seq(|ps|, i requires 0 <= i < |ps| => ProfileBytes(ps[i]))
  }

  lemma {:induction false} ConcatSlice(blocks: seq<seq<u8>>, i: nat)
    requires forall b :: b in blocks ==> |b| == 29
    ensures |Concat(blocks)| == 29 * |blocks|
    ensures i < |blocks| ==> Concat(blocks)[29 * i..29 * i + 29] == blocks[i]
    decreases |blocks|
  {
    if blocks != [] {
      var n := |blocks| - 1;
      var (front, last) := (Concat(blocks[..n]), blocks[n]);
      ConcatSlice(blocks[..n], if i < n then i else 0);
      if i < n {
        SliceOfPrefix(front, last, 29 * i, 29 * i + 29);
      } else if i == n {
        SliceOfSuffix(front, last);
      }
    }
  }

  function TableBytes(ps: ProfileTable): (b: seq<u8>)
    ensures |b| == 203
  {
    ConcatSlice(Blocks(ps), 0);
    Concat(Blocks(ps))
  }

  function TailBytes(c: Config): (b: seq<u8>)
    ensures |b| == 3
  {
    [c.active] + [c.globals.battTempSrc] + [Flag(c.globals.requireBattTemp)]
  }

  function PayloadBytes(c: Config): (b: seq<u8>)
    ensures |b| == PAYLOAD
  {
    PrimitivesBytes(c.prim) + GlobalsHead(c.globals) + GlobalsRest(c.globals) + LimitsBytes(c.limits) +
    TableBytes(c.profiles) + TailBytes(c)
  }

  function TableAt(b: seq<u8>, o: nat): (ps: ProfileTable)
    requires o + 203 <= |b|
  {
    seq(PROFILES, i requires 0 <= i < PROFILES => ProfileAt(b, o + 29 * i))
  }

  /** decode_payload: total on any 292 bytes, whatever their enum or flag values. */
  function PayloadAt(b: seq<u8>, o: nat): Config
    requires o + PAYLOAD <= |b|
  {
    Config(PrimitivesAt(b, o), GlobalsAt(b, o + 20, b[o + 290], b[o + 291]), LimitsAt(b, o + 74), TableAt(b, o + 86), b[o + 289])
  }

  /** A block reads the same wherever it lies. */
  ghost predicate LiesAt(b: seq<u8>, o: nat, block: seq<u8>)
  {
    o + |block| <= |b| && forall j :: o <= j < o + |block| ==> b[j] == block[j - o]
  }

  lemma ProfileRoundTrip(b: seq<u8>, o: nat, p: Profile)
    requires LiesAt(b, o, ProfileBytes(p))
    ensures ProfileAt(b, o) == p
  {
    hide At32, At16, Le32, Le16;
    var k := ProfileBytes(p);
    Le32LiesAt(b, o + 4, p.cvTargetV);
    Le32LiesAt(b, o + 10, p.restV);
    Le32LiesAt(b, o + 14, p.restCapW);
    Le32LiesAt(b, o + 18, p.revertV);
    Le16LiesAt(b, o + 22, p.revertHoldS);
    Le32LiesAt(b, o + 25, p.ahRevert);
  }

  lemma PrimitivesRoundTrip(b: seq<u8>, o: nat, p: Primitives)
    requires LiesAt(b, o, PrimitivesBytes(p))
    ensures PrimitivesAt(b, o) == p
  {
    hide At32, Le32;
    Le32LiesAt(b, o, p.vBulk);
    Le32LiesAt(b, o + 4, p.vBulkCons);
    Le32LiesAt(b, o + 8, p.vFloat);
    Le32LiesAt(b, o + 12, p.vFloatCons);
    Le32LiesAt(b, o + 16, p.vLimp);
  }

  lemma LimitsRoundTrip(b: seq<u8>, o: nat, l: Limits)
    requires LiesAt(b, o, LimitsBytes(l))
    ensures LimitsAt(b, o) == l
  {
    hide At32, Le32;
    Le32LiesAt(b, o, l.batteryC);
    Le32LiesAt(b, o + 4, l.wiringA);
    Le32LiesAt(b, o + 8, l.alternatorA);
  }

  lemma HeadRoundTrip(b: seq<u8>, o: nat, g: Globals)
    requires LiesAt(b, o, GlobalsHead(g))
    ensures b[o] == g.cells && At32(b, o + 1) == g.bankAh && At32(b, o + 5) == g.maxChargeW
    ensures At32(b, o + 9) == g.rampWps && At32(b, o + 13) == g.tailW
    ensures At16(b, o + 17) == g.tailHoldS && At16(b, o + 19) == g.vclampS && At16(b, o + 21) == g.cvHoldMin
    ensures At16(b, o + 23) == g.chargeMaxMin && At16(b, o + 25) == g.warmupS
  {
    hide At32, At16, Le32, Le16;
    Le32LiesAt(b, o + 1, g.bankAh);
    Le32LiesAt(b, o + 5, g.maxChargeW);
    Le32LiesAt(b, o + 9, g.rampWps);
    Le32LiesAt(b, o + 13, g.tailW);
    Le16LiesAt(b, o + 17, g.tailHoldS);
    Le16LiesAt(b, o + 19, g.vclampS);
    Le16LiesAt(b, o + 21, g.cvHoldMin);
    Le16LiesAt(b, o + 23, g.chargeMaxMin);
    Le16LiesAt(b, o + 25, g.warmupS);
    assert b[o] == GlobalsHead(g)[0];
  }

  lemma RestRoundTrip(b: seq<u8>, o: nat, g: Globals)
    requires LiesAt(b, o, GlobalsRest(g))
    ensures At32(b, o) == g.warmupCoolantC && b[o + 4] == g.socTarget && At32(b, o + 5) == g.skipBulkV
    ensures b[o + 9] == g.skipBulkSoc && At32(b, o + 10) == g.rotorRatedV && At32(b, o + 14) == g.rotorMaxV
    ensures (b[o + 18] != 0) == g.fullField48 && At32(b, o + 19) == g.limpV && At32(b, o + 23) == g.limpCapW
  {
    hide At32, At16, Le32, Le16;
    var k := GlobalsRest(g);
    assert b[o + 4] == k[4] && b[o + 9] == k[9] && b[o + 18] == k[18];
    Le32LiesAt(b, o, g.warmupCoolantC);
    Le32LiesAt(b, o + 5, g.skipBulkV);
    Le32LiesAt(b, o + 10, g.rotorRatedV);
    Le32LiesAt(b, o + 14, g.rotorMaxV);
    Le32LiesAt(b, o + 19, g.limpV);
    Le32LiesAt(b, o + 23, g.limpCapW);
  }

  lemma GlobalsRoundTrip(b: seq<u8>, o: nat, tail: nat, c: Config)
    requires LiesAt(b, o, GlobalsHead(c.globals)) && LiesAt(b, o + 27, GlobalsRest(c.globals))
    requires LiesAt(b, tail, TailBytes(c))
    ensures GlobalsAt(b, o, b[tail + 1], b[tail + 2]) == c.globals && b[tail] == c.active
  {
    hide At32, At16, GlobalsHead, GlobalsRest;
    HeadRoundTrip(b, o, c.globals);
    RestRoundTrip(b, o + 27, c.globals);
    assert b[tail] == TailBytes(c)[0] && b[tail + 1] == TailBytes(c)[1] && b[tail + 2] == TailBytes(c)[2];
  }

  lemma TableRoundTrip(b: seq<u8>, o: nat, ps: ProfileTable)
    requires LiesAt(b, o, TableBytes(ps))
    ensures TableAt(b, o) == ps
  {
    hide ProfileAt, ProfileBytes;
    forall i | 0 <= i < PROFILES ensures TableAt(b, o)[i] == ps[i] {
      EntryLiesAt(b, o, Blocks(ps), i);
      ProfileRoundTrip(b, o + 29 * i, ps[i]);
    }
  }

  lemma EntryLiesAt(b: seq<u8>, o: nat, blocks: seq<seq<u8>>, i: nat)
    requires i < |blocks| && forall x :: x in blocks ==> |x| == 29
    requires LiesAt(b, o, Concat(blocks))
    ensures LiesAt(b, o + 29 * i, blocks[i])
  {
    hide Concat, LiesAt;
    ConcatSlice(blocks, i);
    BlockLiesAt(b, o, Concat(blocks), 29 * i, blocks[i]);
  }

  lemma BlockLiesAt(b: seq<u8>, o: nat, outer: seq<u8>, k: nat, inner: seq<u8>)
    requires LiesAt(b, o, outer) && k + |inner| <= |outer| && outer[k..k + |inner|] == inner
    ensures LiesAt(b, o + k, inner)
  {
    forall j | o + k <= j < o + k + |inner| ensures b[j] == inner[j - (o + k)] {
      assert outer[k..k + |inner|][j - o - k] == outer[j - o];
    }
  }

  lemma SliceOfPrefix(a: seq<u8>, b: seq<u8>, lo: nat, hi: nat)
    requires lo <= hi <= |a|
    ensures (a + b)[lo..hi] == a[lo..hi]
  {}

  lemma SliceOfSuffix(a: seq<u8>, b: seq<u8>)
    ensures (a + b)[|a|..|a| + |b|] == b
  {}

  /** Where the six blocks of the payload lie. */
  lemma SixParts(a: seq<u8>, b: seq<u8>, c: seq<u8>, d: seq<u8>, e: seq<u8>, f: seq<u8>)
    requires |a| == 20 && |b| == 27 && |c| == 27 && |d| == 12 && |e| == 203 && |f| == 3
    ensures var s := a + b + c + d + e + f;
            && LiesAt(s, 0, a) && LiesAt(s, 20, b) && LiesAt(s, 47, c) && LiesAt(s, 74, d)
            && LiesAt(s, 86, e) && LiesAt(s, 289, f)
  {}

  lemma Shifted(b: seq<u8>, o: nat, outer: seq<u8>, k: nat, inner: seq<u8>)
    requires LiesAt(b, o, outer) && LiesAt(outer, k, inner)
    ensures LiesAt(b, o + k, inner)
  {
    forall j | o + k <= j < o + k + |inner| ensures b[j] == inner[j - (o + k)] { assert b[j] == outer[j - o]; }
  }

  lemma PayloadParts(b: seq<u8>, o: nat, c: Config)
    requires LiesAt(b, o, PayloadBytes(c))
    ensures LiesAt(b, o, PrimitivesBytes(c.prim)) && LiesAt(b, o + 20, GlobalsHead(c.globals))
    ensures LiesAt(b, o + 47, GlobalsRest(c.globals)) && LiesAt(b, o + 74, LimitsBytes(c.limits))
    ensures LiesAt(b, o + 86, TableBytes(c.profiles)) && LiesAt(b, o + 289, TailBytes(c))
  {
    var s := PayloadBytes(c);
    SixParts(PrimitivesBytes(c.prim), GlobalsHead(c.globals), GlobalsRest(c.globals),
             LimitsBytes(c.limits), TableBytes(c.profiles), TailBytes(c));
    Shifted(b, o, s, 0, PrimitivesBytes(c.prim));
    Shifted(b, o, s, 20, GlobalsHead(c.globals));
    Shifted(b, o, s, 47, GlobalsRest(c.globals));
    Shifted(b, o, s, 74, LimitsBytes(c.limits));
    Shifted(b, o, s, 86, TableBytes(c.profiles));
    Shifted(b, o, s, 289, TailBytes(c));
  }

  /** Decoding undoes encoding, for every config, wherever the payload lies. */
  lemma PayloadRoundTrip(b: seq<u8>, o: nat, c: Config)
    requires LiesAt(b, o, PayloadBytes(c))
    ensures PayloadAt(b, o) == c
  {
    PayloadParts(b, o, c);
    PrimitivesRoundTrip(b, o, c.prim);
    GlobalsRoundTrip(b, o + 20, o + 289, c);
    LimitsRoundTrip(b, o + 74, c.limits);
    TableRoundTrip(b, o + 86, c.profiles);
  }
}
