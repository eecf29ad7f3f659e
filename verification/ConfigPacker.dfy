/** The encode and decode walks of control/Src/config_codec.c over a u8 buffer with an
    advancing offset, proved against the layout of ConfigCodec and ConfigFrame. */
module ConfigPacker {
  import opened Words
  import opened Crc32
  import opened ConfigCodec
  import opened ConfigFrame

  /** A buffer being filled. `out` is its contents, `done` what was put since Begin. */
  class Packer {
    const buf: array<u8>
    var o: nat
    ghost var out: seq<u8>
    ghost var base: seq<u8>
    ghost var done: seq<u8>

    ghost predicate Valid()
      reads this, buf
    {
      o <= buf.Length && buf[..o] == out && out == base + done
    }

    constructor (buf: array<u8>)
      ensures Valid() && this.buf == buf && o == 0 && out == []
    {
      this.buf, o, out, base, done := buf, 0, [], [], [];
    }

    ghost method Begin()
      requires Valid()
      modifies this`base, this`done
      ensures Valid() && base == out && done == []
    {
      base, done := out, [];
    }

    ghost method Note(x: seq<u8>)
      requires out == base + done
      modifies this`out, this`done
      ensures out == old(out) + x == base + done
      ensures done == if old(done) == [] then x else old(done) + x
    {
      out := out + x;
      done := if done == [] then x else done + x;
    }

    method Put8(v: u8)
      requires Valid() && o + 1 <= buf.Length
      modifies this`o, this`out, this`done, buf
      ensures Valid() && o == old(o) + 1
      ensures done == if old(done) == [] then [v] else old(done) + [v]
    {
      buf[o] := v;
      Note([v]);
      o := o + 1;
    }

    method Put16(v: u16)
      requires Valid() && o + 2 <= buf.Length
      modifies this`o, this`out, this`done, buf
      ensures Valid() && o == old(o) + 2
      ensures done == if old(done) == [] then Le16(v) else old(done) + Le16(v)
    {
      buf[o], buf[o + 1] := v % 0x100, v / 0x100;
      Note(Le16(v));
      o := o + 2;
    }

    method Put32(v: u32)
      requires Valid() && o + 4 <= buf.Length
      modifies this`o, this`out, this`done, buf
      ensures Valid() && o == old(o) + 4
      ensures done == if old(done) == [] then Le32(v) else old(done) + Le32(v)
    {
      buf[o], buf[o + 1], buf[o + 2], buf[o + 3] :=
        v % 0x100, v / 0x100 % 0x100, v / 0x1_0000 % 0x100, v / 0x100_0000;
      Note(Le32(v));
      o := o + 4;
    }

    method PutPrimitives(p: Primitives)
      requires Valid() && o + 20 <= buf.Length
      modifies this, buf
      ensures Valid() && o == old(o) + 20 && out == old(out) + PrimitivesBytes(p)
    {
      Begin();
      Put32(p.vBulk);
      Put32(p.vBulkCons);
      Put32(p.vFloat);
      Put32(p.vFloatCons);
      Put32(p.vLimp);
    }

    method PutGlobalsHead(g: Globals)
      requires Valid() && o + 27 <= buf.Length
      modifies this, buf
      ensures Valid() && o == old(o) + 27 && out == old(out) + GlobalsHead(g)
    {
      Begin();
      Put8(g.cells);
      Put32(g.bankAh);
      Put32(g.maxChargeW);
      Put32(g.rampWps);
      Put32(g.tailW);
      Put16(g.tailHoldS);
      Put16(g.vclampS);
      Put16(g.cvHoldMin);
      Put16(g.chargeMaxMin);
      Put16(g.warmupS);
    }

    method PutGlobalsRest(g: Globals)
      requires Valid() && o + 27 <= buf.Length
      modifies this, buf
      ensures Valid() && o == old(o) + 27 && out == old(out) + GlobalsRest(g)
    {
      Begin();
      Put32(g.warmupCoolantC);
      Put8(g.socTarget);
      Put32(g.skipBulkV);
      Put8(g.skipBulkSoc);
      Put32(g.rotorRatedV);
      Put32(g.rotorMaxV);
      Put8(Flag(g.fullField48));
      Put32(g.limpV);
      Put32(g.limpCapW);
    }

    method PutLimits(l: Limits)
      requires Valid() && o + 12 <= buf.Length
      modifies this, buf
      ensures Valid() && o == old(o) + 12 && out == old(out) + LimitsBytes(l)
    {
      Begin();
      Put32(l.batteryC);
      Put32(l.wiringA);
      Put32(l.alternatorA);
    }

    method PutProfile(p: Profile)
      requires Valid() && o + 29 <= buf.Length
      modifies this, buf
      ensures Valid() && o == old(o) + 29 && out == old(out) + ProfileBytes(p)
    {
      Begin();
      Put8(p.id);
      Put8(p.flags);
      Put8(p.cvRef);
      Put8(p.restRef);
      Put32(p.cvTargetV);
      Put8(Flag(p.exitAtCv));
      Put8(p.restMode);
      Put32(p.restV);
      Put32(p.restCapW);
      Put32(p.revertV);
      Put16(p.revertHoldS);
      Put8(p.socRevert);
      Put32(p.ahRevert);
    }

    method PutTable(ps: ProfileTable)
      requires Valid() && o + 203 <= buf.Length
      modifies this, buf
      ensures Valid() && o == old(o) + 203 && out == old(out) + TableBytes(ps)
    {
      hide ProfileBytes;
      ghost var blocks := Blocks(ps);
      var i := 0;
      while i < PROFILES
        invariant 0 <= i <= PROFILES && Valid() && o == old(o) + 29 * i
        invariant out == old(out) + Concat(blocks[..i])
      {
        PutProfile(ps[i]);
        ConcatNext(blocks, i);
        i := i + 1;
      }
      assert blocks[..i] == blocks;
    }

    method PutTail(c: Config)
      requires Valid() && o + 3 <= buf.Length
      modifies this, buf
      ensures Valid() && o == old(o) + 3 && out == old(out) + TailBytes(c)
    {
      Begin();
      Put8(c.active);
      Put8(c.globals.battTempSrc);
      Put8(Flag(c.globals.requireBattTemp));
    }

    method PutPayload(c: Config)
      requires Valid() && o + PAYLOAD <= buf.Length
      modifies this, buf
      ensures Valid() && o == old(o) + PAYLOAD && out == old(out) + PayloadBytes(c)
    {
      PutPrimitives(c.prim);
      PutGlobalsHead(c.globals);
      PutGlobalsRest(c.globals);
      PutLimits(c.limits);
      PutTable(c.profiles);
      PutTail(c);
      SixJoined(old(out), PrimitivesBytes(c.prim), GlobalsHead(c.globals), GlobalsRest(c.globals),
                LimitsBytes(c.limits), TableBytes(c.profiles), TailBytes(c));
    }

    method PutHeader(generation: u32)
      requires Valid() && o + HEADER <= buf.Length
      modifies this, buf
      ensures Valid() && o == old(o) + HEADER && out == old(out) + HeaderBytes(generation)
    {
      Begin();
      Put8(MAGIC[0]);
      Put8(MAGIC[1]);
      Put8(MAGIC[2]);
      Put8(MAGIC[3]);
      assert done == MAGIC;
      Put16(SCHEMA);
      Put16(0);
      Put32(generation);
      Put16(PAYLOAD_LEN);
      Put16(0);
    }
  }

  lemma ConcatNext(blocks: seq<seq<u8>>, i: nat)
    requires i < |blocks|
    ensures Concat(blocks[..i + 1]) == Concat(blocks[..i]) + blocks[i]
  {
    assert blocks[..i + 1][..i] == blocks[..i];
  }

  lemma SixJoined(z: seq<u8>, a: seq<u8>, b: seq<u8>, c: seq<u8>, d: seq<u8>, e: seq<u8>, f: seq<u8>)
    ensures z + a + b + c + d + e + f == z + (a + b + c + d + e + f)
  {}

  /** cfg_encode: the bytes written, or 0 and an untouched buffer if it is too small. */
  method Encode(c: Config, generation: u32, buf: array<u8>) returns (n: nat)
    modifies buf
    ensures n == if buf.Length < RECORD then 0 else RECORD
    ensures n == 0 ==> buf[..] == old(buf[..])
    ensures n == RECORD ==> buf[..RECORD] == RecordBytes(c, generation)
  {
    if buf.Length < RECORD { return 0; }
    var w := new Packer(buf);
    w.PutHeader(generation);
    w.PutPayload(c);
    assert buf[..BODY] == w.out == BodyBytes(c, generation);
    var crc := ComputeCrc(buf, BODY);
    w.Begin();
    w.Put32(crc);
    n := w.o;
  }

  /** A buffer being read. */
  class Unpacker {
    const b: seq<u8>
    var o: nat

    constructor (b: seq<u8>, o: nat)
      ensures this.b == b && this.o == o
    {
      this.b, this.o := b, o;
    }

    method Get8() returns (v: u8)
      requires o + 1 <= |b|
      modifies this
      ensures o == old(o) + 1 && v == b[old(o)]
    {
      v := b[o];
      o := o + 1;
    }

    method Get16() returns (v: u16)
      requires o + 2 <= |b|
      modifies this
      ensures o == old(o) + 2 && v == At16(b, old(o))
    {
      v := At16(b, o);
      o := o + 2;
    }

    method Get32() returns (v: u32)
      requires o + 4 <= |b|
      modifies this
      ensures o == old(o) + 4 && v == At32(b, old(o))
    {
      v := At32(b, o);
      o := o + 4;
    }

    method GetPrimitives() returns (p: Primitives)
      requires o + 20 <= |b|
      modifies this
      ensures o == old(o) + 20 && p == PrimitivesAt(b, old(o))
    {
      hide At32;
      var vBulk := Get32();
      var vBulkCons := Get32();
      var vFloat := Get32();
      var vFloatCons := Get32();
      var vLimp := Get32();
      p := Primitives(vBulk, vBulkCons, vFloat, vFloatCons, vLimp);
    }

    method GetGlobalsHead() returns (g: Globals)
      requires o + 27 <= |b|
      modifies this
      ensures o == old(o) + 27 && g == GlobalsFrontAt(b, old(o))
    {
      hide At32, At16;
      var cells := Get8();
      var bankAh := Get32();
      var maxChargeW := Get32();
      var rampWps := Get32();
      var tailW := Get32();
      var tailHoldS := Get16();
      var vclampS := Get16();
      var cvHoldMin := Get16();
      var chargeMaxMin := Get16();
      var warmupS := Get16();
      g := Globals(cells, bankAh, maxChargeW, rampWps, tailW, tailHoldS, vclampS, cvHoldMin, chargeMaxMin,
                   warmupS, 0, 0, 0, 0, 0, 0, false, 0, 0, 0, false);
    }

    method GetGlobalsRest(f: Globals) returns (g: Globals)
      requires o + 27 <= |b|
      modifies this
      ensures o == old(o) + 27 && g == GlobalsRestAt(f, b, old(o))
    {
      hide At32, At16;
      var warmupCoolantC := Get32();
      var socTarget := Get8();
      var skipBulkV := Get32();
      var skipBulkSoc := Get8();
      var rotorRatedV := Get32();
      var rotorMaxV := Get32();
      var fullField := Get8();
      var limpV := Get32();
      var limpCapW := Get32();
      g := f.(warmupCoolantC := warmupCoolantC, socTarget := socTarget, skipBulkV := skipBulkV,
              skipBulkSoc := skipBulkSoc, rotorRatedV := rotorRatedV, rotorMaxV := rotorMaxV,
              fullField48 := fullField != 0, limpV := limpV, limpCapW := limpCapW);
    }

    method GetLimits() returns (l: Limits)
      requires o + 12 <= |b|
      modifies this
      ensures o == old(o) + 12 && l == LimitsAt(b, old(o))
    {
      hide At32;
      var batteryC := Get32();
      var wiringA := Get32();
      var alternatorA := Get32();
      l := Limits(batteryC, wiringA, alternatorA);
    }

    method GetProfile() returns (p: Profile)
      requires o + 29 <= |b|
      modifies this
      ensures o == old(o) + 29 && p == ProfileAt(b, old(o))
    {
      hide At32, At16;
      var id := Get8();
      var flags := Get8();
      var cvRef := Get8();
      var restRef := Get8();
      var cvTargetV := Get32();
      var exitAtCv := Get8();
      var restMode := Get8();
      var restV := Get32();
      var restCapW := Get32();
      var revertV := Get32();
      var revertHoldS := Get16();
      var socRevert := Get8();
      var ahRevert := Get32();
      p := Profile(id, flags, cvRef, restRef, cvTargetV, exitAtCv != 0, restMode, restV, restCapW,
                   revertV, revertHoldS, socRevert, ahRevert);
    }

    method GetTable() returns (ps: ProfileTable)
      requires o + 203 <= |b|
      modifies this
      ensures o == old(o) + 203 && ps == TableAt(b, old(o))
    {
      var got: seq<Profile> := [];
      var i := 0;
      while i < PROFILES
        invariant 0 <= i <= PROFILES && |got| == i && o == old(o) + 29 * i
        invariant forall k :: 0 <= k < i ==> got[k] == ProfileAt(b, old(o) + 29 * k)
      {
        var p := GetProfile();
        got := got + [p];
        i := i + 1;
      }
      ps := got;
    }

    method GetPayload() returns (c: Config)
      requires o + PAYLOAD <= |b|
      modifies this
      ensures o == old(o) + PAYLOAD && c == PayloadAt(b, old(o))
    {
      hide PrimitivesAt, LimitsAt, TableAt, GlobalsFrontAt, GlobalsRestAt;
      var prim := GetPrimitives();
      var g := GetGlobalsHead();
      g := GetGlobalsRest(g);
      var limits := GetLimits();
      var profiles := GetTable();
      var active := Get8();
      var src := Get8();
      var required := Get8();
      g := g.(battTempSrc := src, requireBattTemp := required != 0);
      c := Config(prim, g, limits, profiles, active);
    }
  }

  /** cfg_peek on the first `len` bytes of a buffer. */
  method PeekFrame(buf: array<u8>, len: nat) returns (r: Peeked)
    requires len <= buf.Length
    ensures r == Peek(buf[..len])
  {
    if len < HEADER { return Reject(Short); }
    if buf[0] != MAGIC[0] || buf[1] != MAGIC[1] || buf[2] != MAGIC[2] || buf[3] != MAGIC[3] {
      assert buf[..len][..4] != MAGIC;
      return Reject(BadMagic);
    }
    assert buf[..len][..4] == MAGIC;
    var u := new Unpacker(buf[..len], 4);
    var version := u.Get16();
    if version != SCHEMA { return Reject(BadVersion); }
    u.o := 12;
    var length := u.Get16();
    if length != PAYLOAD_LEN { return Reject(BadLength); }
    if len < RECORD { return Reject(Short); }
    u.o := BODY;
    var stored := u.Get32();
    var crc := ComputeCrc(buf, BODY);
    assert buf[..len][..BODY] == buf[..BODY];
    if stored != crc { return Reject(BadCrc); }
    u.o := 8;
    var generation := u.Get32();
    r := Frame(generation);
  }

  /** cfg_decode: `was` is what the caller's config held, and keeps on any rejection. */
  method DecodeRecord(buf: array<u8>, len: nat, was: Config) returns (r: Peeked, c: Config)
    requires len <= buf.Length
    ensures r == Peek(buf[..len])
    ensures r.Reject? ==> c == was
    ensures r.Frame? ==> Decode(buf[..len]) == Record(c, r.generation)
  {
    c := was;
    r := PeekFrame(buf, len);
    if r.Reject? { return; }
    var u := new Unpacker(buf[..len], HEADER);
    c := u.GetPayload();
  }
}
