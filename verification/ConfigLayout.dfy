/** The stored record byte by byte: where each member of a config lies, in which byte order, and
    what frames it. */
module ConfigLayout {
  import opened Words
  import opened Crc32
  import opened ConfigCodec
  import opened ConfigFrame

  /** A word of four bytes, the least significant first. */
  predicate Word(b: seq<u8>, o: nat, v: u32)
  {
    && o + 4 <= |b| && b[o] == v % 0x100 && b[o + 1] == v / 0x100 % 0x100
    && b[o + 2] == v / 0x1_0000 % 0x100 && b[o + 3] == v / 0x100_0000
  }

  predicate Half(b: seq<u8>, o: nat, v: u16) { o + 2 <= |b| && b[o] == v % 0x100 && b[o + 1] == v / 0x100 }

  predicate Yes(b: seq<u8>, o: nat, v: bool) { o < |b| && b[o] == if v then 1 else 0 }

  predicate Byte(b: seq<u8>, o: nat, v: u8) { o < |b| && b[o] == v }

  predicate PrimitivesLie(b: seq<u8>, p: Primitives)
  {
    Word(b, 16, p.vBulk) && Word(b, 20, p.vBulkCons) && Word(b, 24, p.vFloat) && Word(b, 28, p.vFloatCons) && Word(b, 32, p.vLimp)
  }

  predicate GlobalsLie(b: seq<u8>, g: Globals)
  {
    && Byte(b, 36, g.cells) && Word(b, 37, g.bankAh) && Word(b, 41, g.maxChargeW) && Word(b, 45, g.rampWps)
    && Word(b, 49, g.tailW) && Half(b, 53, g.tailHoldS) && Half(b, 55, g.vclampS) && Half(b, 57, g.cvHoldMin)
    && Half(b, 59, g.chargeMaxMin) && Half(b, 61, g.warmupS) && Word(b, 63, g.warmupCoolantC)
    && Byte(b, 67, g.socTarget) && Word(b, 68, g.skipBulkV) && Byte(b, 72, g.skipBulkSoc) && Word(b, 73, g.rotorRatedV)
    && Word(b, 77, g.rotorMaxV) && Yes(b, 81, g.fullField48) && Word(b, 82, g.limpV) && Word(b, 86, g.limpCapW)
    && Byte(b, 306, g.battTempSrc) && Yes(b, 307, g.requireBattTemp)
  }

  predicate LimitsLie(b: seq<u8>, l: Limits) { Word(b, 90, l.batteryC) && Word(b, 94, l.wiringA) && Word(b, 98, l.alternatorA) }

  /** A profile of 29 bytes. */
  predicate ProfileLies(b: seq<u8>, o: nat, p: Profile)
  {
    && Byte(b, o, p.id) && Byte(b, o + 1, p.flags) && Byte(b, o + 2, p.cvRef) && Byte(b, o + 3, p.restRef)
    && Word(b, o + 4, p.cvTargetV) && Yes(b, o + 8, p.exitAtCv) && Byte(b, o + 9, p.restMode)
    && Word(b, o + 10, p.restV) && Word(b, o + 14, p.restCapW) && Word(b, o + 18, p.revertV)
    && Half(b, o + 22, p.revertHoldS) && Byte(b, o + 24, p.socRevert) && Word(b, o + 25, p.ahRevert)
  }

  lemma WordLies(b: seq<u8>, o: nat, block: seq<u8>, k: nat, v: u32)
    requires LiesAt(b, o, block) && k + 4 <= |block| && block[k..k + 4] == Le32(v)
    ensures Word(b, o + k, v)
  {
    var w := block[k..k + 4];
    assert b[o + k] == w[0] && b[o + k + 1] == w[1] && b[o + k + 2] == w[2] && b[o + k + 3] == w[3];
  }

  lemma HalfLies(b: seq<u8>, o: nat, block: seq<u8>, k: nat, v: u16)
    requires LiesAt(b, o, block) && k + 2 <= |block| && block[k..k + 2] == Le16(v)
    ensures Half(b, o + k, v)
  {
    var w := block[k..k + 2];
    assert b[o + k] == w[0] && b[o + k + 1] == w[1];
  }

  lemma PrimitivesAre(b: seq<u8>, p: Primitives)
    requires LiesAt(b, 16, PrimitivesBytes(p))
    ensures PrimitivesLie(b, p)
  {
    hide Word, Le32, LiesAt;
    var k := PrimitivesBytes(p);
    WordLies(b, 16, k, 0, p.vBulk);
    WordLies(b, 16, k, 4, p.vBulkCons);
    WordLies(b, 16, k, 8, p.vFloat);
    WordLies(b, 16, k, 12, p.vFloatCons);
    WordLies(b, 16, k, 16, p.vLimp);
  }

  lemma HeadIs(b: seq<u8>, g: Globals)
    requires LiesAt(b, 36, GlobalsHead(g))
    ensures Byte(b, 36, g.cells) && Word(b, 37, g.bankAh) && Word(b, 41, g.maxChargeW) && Word(b, 45, g.rampWps)
    ensures Word(b, 49, g.tailW) && Half(b, 53, g.tailHoldS) && Half(b, 55, g.vclampS) && Half(b, 57, g.cvHoldMin)
    ensures Half(b, 59, g.chargeMaxMin) && Half(b, 61, g.warmupS)
  {
    var k := GlobalsHead(g);
    assert b[36] == k[0];
    hide Word, Half, Le32, Le16, LiesAt;
    WordLies(b, 36, k, 1, g.bankAh);
    WordLies(b, 36, k, 5, g.maxChargeW);
    WordLies(b, 36, k, 9, g.rampWps);
    WordLies(b, 36, k, 13, g.tailW);
    HalfLies(b, 36, k, 17, g.tailHoldS);
    HalfLies(b, 36, k, 19, g.vclampS);
    HalfLies(b, 36, k, 21, g.cvHoldMin);
    HalfLies(b, 36, k, 23, g.chargeMaxMin);
    HalfLies(b, 36, k, 25, g.warmupS);
  }

  lemma RestIs(b: seq<u8>, g: Globals)
    requires LiesAt(b, 63, GlobalsRest(g))
    ensures Word(b, 63, g.warmupCoolantC) && Byte(b, 67, g.socTarget) && Word(b, 68, g.skipBulkV)
    ensures Byte(b, 72, g.skipBulkSoc) && Word(b, 73, g.rotorRatedV) && Word(b, 77, g.rotorMaxV)
    ensures Yes(b, 81, g.fullField48) && Word(b, 82, g.limpV) && Word(b, 86, g.limpCapW)
  {
    RestBytes(b, g);
    hide Word, Le32, LiesAt;
    var k := GlobalsRest(g);
    WordLies(b, 63, k, 0, g.warmupCoolantC);
    WordLies(b, 63, k, 5, g.skipBulkV);
    WordLies(b, 63, k, 10, g.rotorRatedV);
    WordLies(b, 63, k, 14, g.rotorMaxV);
    WordLies(b, 63, k, 19, g.limpV);
    WordLies(b, 63, k, 23, g.limpCapW);
  }

  lemma RestBytes(b: seq<u8>, g: Globals)
    requires LiesAt(b, 63, GlobalsRest(g))
    ensures Byte(b, 67, g.socTarget) && Byte(b, 72, g.skipBulkSoc) && Yes(b, 81, g.fullField48)
  {
    hide Le32;
    var k := GlobalsRest(g);
    assert b[67] == k[4] && b[72] == k[9] && b[81] == k[18];
  }

  lemma LimitsAre(b: seq<u8>, l: Limits)
    requires LiesAt(b, 90, LimitsBytes(l))
    ensures LimitsLie(b, l)
  {
    hide Word, Le32, LiesAt;
    var k := LimitsBytes(l);
    WordLies(b, 90, k, 0, l.batteryC);
    WordLies(b, 90, k, 4, l.wiringA);
    WordLies(b, 90, k, 8, l.alternatorA);
  }

  lemma ProfileWords(b: seq<u8>, o: nat, p: Profile)
    requires LiesAt(b, o, ProfileBytes(p))
    ensures Word(b, o + 4, p.cvTargetV) && Word(b, o + 10, p.restV) && Word(b, o + 14, p.restCapW)
    ensures Word(b, o + 18, p.revertV) && Half(b, o + 22, p.revertHoldS) && Word(b, o + 25, p.ahRevert)
  {
    hide Word, Half, Le32, Le16, LiesAt;
    var k := ProfileBytes(p);
    WordLies(b, o, k, 4, p.cvTargetV);
    WordLies(b, o, k, 10, p.restV);
    WordLies(b, o, k, 14, p.restCapW);
    WordLies(b, o, k, 18, p.revertV);
    HalfLies(b, o, k, 22, p.revertHoldS);
    WordLies(b, o, k, 25, p.ahRevert);
  }

  lemma ProfileIs(b: seq<u8>, o: nat, p: Profile)
    requires LiesAt(b, o, ProfileBytes(p))
    ensures ProfileLies(b, o, p)
  {
    ProfileWords(b, o, p);
    hide Word, Half, Le32, Le16;
    var k := ProfileBytes(p);
    assert b[o] == k[0] && b[o + 1] == k[1] && b[o + 2] == k[2] && b[o + 3] == k[3];
    assert b[o + 8] == k[8] && b[o + 9] == k[9] && b[o + 24] == k[24];
  }

  lemma HeaderIs(g: u32)
    ensures var h := HeaderBytes(g);
            && h[..4] == [0x57, 0x35, 0x43, 0x46] && Half(h, 4, 2) && Half(h, 6, 0) && Word(h, 8, g)
            && Half(h, 12, 292) && Half(h, 14, 0)
  {
    var h := HeaderBytes(g);
    assert h[8..12] == Le32(g);
    assert LiesAt(h, 0, h);
    hide Le32;
    WordLies(h, 0, h, 8, g);
  }

  lemma FrameLies(c: Config, g: u32)
    ensures var b := RecordBytes(c, g);
            && b[..4] == [0x57, 0x35, 0x43, 0x46] && Half(b, 4, 2) && Half(b, 6, 0) && Word(b, 8, g)
            && Half(b, 12, 292) && Half(b, 14, 0) && Word(b, 308, CrcOf(b[..308]))
  {
    hide PayloadBytes, HeaderBytes, CrcOf, Le32;
    var (h, b) := (HeaderBytes(g), RecordBytes(c, g));
    HeaderIs(g);
    assert b[..16] == h && b[..4] == h[..4];
    assert forall i :: 0 <= i < 16 ==> b[i] == h[i];
    assert b[..308] == BodyBytes(c, g) && b[308..312] == Le32(CrcOf(b[..308]));
    assert LiesAt(b, 0, b);
    WordLies(b, 0, b, 308, CrcOf(b[..308]));
  }

  lemma PayloadLies(c: Config, g: u32)
    ensures LiesAt(RecordBytes(c, g), 16, PayloadBytes(c))
  {
    hide PayloadBytes, HeaderBytes, CrcOf, Le32;
  }

  /** Every byte of a record is accounted for: 16 of the header, 292 of the payload, 4 of the CRC-32 of
      all that comes before it. */
  lemma RecordLayout(c: Config, g: u32, i: nat)
    requires i < 7
    ensures var b := RecordBytes(c, g);
            && |b| == 312 && b[..4] == [0x57, 0x35, 0x43, 0x46]
            && Half(b, 4, 2) && Half(b, 6, 0) && Word(b, 8, g) && Half(b, 12, 292) && Half(b, 14, 0)
            && PrimitivesLie(b, c.prim) && GlobalsLie(b, c.globals) && LimitsLie(b, c.limits)
            && ProfileLies(b, 102 + 29 * i, c.profiles[i]) && Byte(b, 305, c.active)
            && Word(b, 308, CrcOf(b[..308]))
  {
    FrameLies(c, g);
    PayloadLies(c, g);
    hide PrimitivesBytes, GlobalsHead, GlobalsRest, LimitsBytes, TableBytes, TailBytes, CrcOf, PayloadBytes, RecordBytes,
      PrimitivesLie, LimitsLie, ProfileLies, LiesAt, Word, Half;
    var b := RecordBytes(c, g);
    PayloadParts(b, 16, c);
    PrimitivesAre(b, c.prim);
    HeadIs(b, c.globals);
    RestIs(b, c.globals);
    LimitsAre(b, c.limits);
    TableLies(b, c.profiles, i);
    TailIs(b, c);
  }

  lemma TableLies(b: seq<u8>, ps: ProfileTable, i: nat)
    requires LiesAt(b, 102, TableBytes(ps)) && i < 7
    ensures ProfileLies(b, 102 + 29 * i, ps[i])
  {
    hide ProfileBytes, Concat, LiesAt, ProfileLies;
    EntryLiesAt(b, 102, Blocks(ps), i);
    ProfileIs(b, 102 + 29 * i, ps[i]);
  }

  lemma TailIs(b: seq<u8>, c: Config)
    requires LiesAt(b, 305, TailBytes(c))
    ensures Byte(b, 305, c.active) && Byte(b, 306, c.globals.battTempSrc) && Yes(b, 307, c.globals.requireBattTemp)
  {
    var k := TailBytes(c);
    assert b[305] == k[0] && b[306] == k[1] && b[307] == k[2];
  }

  /** What the frame check looks at, and in which order: room for a header, the magic, schema 2, a
      payload of 292 bytes, room for the rest, the CRC. */
  lemma PeekLaw(b: seq<u8>)
    ensures Peek(b) ==
            if |b| < 16 then Reject(Short)
            else if b[..4] != [0x57, 0x35, 0x43, 0x46] then Reject(BadMagic)
            else if !Half(b, 4, 2) then Reject(BadVersion)
            else if !Half(b, 12, 292) then Reject(BadLength)
            else if |b| < 312 then Reject(Short)
            else if !Word(b, 308, CrcOf(b[..308])) then Reject(BadCrc)
            else Frame(At32(b, 8))
    ensures |b| >= 12 ==> Word(b, 8, At32(b, 8))
  {
    hide CrcOf;
    if |b| >= 16 {
      HalfIs(b, 4, 2);
      HalfIs(b, 12, 292);
    }
    if |b| >= 12 { WordIs(b, 8, At32(b, 8)); }
    if |b| >= 312 { WordIs(b, 308, CrcOf(b[..308])); }
  }

  lemma HalfIs(b: seq<u8>, o: nat, v: u16)
    requires o + 2 <= |b|
    ensures Half(b, o, v) <==> At16(b, o) == v
  {}

  lemma WordIs(b: seq<u8>, o: nat, v: u32)
    requires o + 4 <= |b|
    ensures Word(b, o, v) <==> At32(b, o) == v
  {
    WordBytes(b, o);
    var w := b[o..o + 4];
    assert w[0] == b[o] && w[1] == b[o + 1] && w[2] == b[o + 2] && w[3] == b[o + 3];
    Le32RoundTrip(v);
    if Word(b, o, v) { assert w == Le32(v); }
  }
}
