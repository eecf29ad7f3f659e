/** The two-slot store of control/Src/config_store.c over the EEPROM driver. */
module ConfigStore {
  import opened Words
  import opened Crc32
  import opened ConfigCodec
  import opened ConfigFrame
  import ConfigPacker
  import Eeprom

  datatype Status = Ok | Nothing | Io | Mismatch

  /** What a load finds: the winning slot, or why there is none. */
  datatype Found = Winner(slot: nat, generation: u32, config: Config) | Blank | Dead

  /** (int32_t)(a - b) > 0 */
  predicate Newer(a: u32, b: u32) { 0 < Sub32(a, b) < 0x8000_0000 }

  function NextGen(g: u32): u32 { Wrap32(g + 1) }

  function SlotAddr(slot: nat): (a: nat)
    ensures a + RECORD <= Eeprom.SIZE
  {
    if slot == 0 then 0 else 0x400
  }

  function Slot(m: seq<u8>, slot: nat): (r: seq<u8>)
    requires |m| == Eeprom.SIZE
    ensures |r| == RECORD
  {
    m[SlotAddr(slot)..SlotAddr(slot) + RECORD]
  }

  function GenOf(r: seq<u8>): u32
    requires Valid(r)
  {
    Peek(r).generation
  }

  function ConfigOf(r: seq<u8>): Config { PayloadAt(if |r| == RECORD then r else seq(RECORD, i => 0), HEADER) }

  function Won(slot: nat, r: seq<u8>): Found
    requires Valid(r)
  {
    Winner(slot, GenOf(r), ConfigOf(r))
  }

  /** One slot offered to the best found so far: a later slot wins only if it is
      readable, valid and strictly newer. */
  function Offer(best: Found, slot: nat, readable: bool, r: seq<u8>): Found
    requires |r| == RECORD
  {
    if !readable then best
    else if !Valid(r) then (if best.Winner? then best else Blank)
    else if best.Winner? && !Newer(GenOf(r), best.generation) then best
    else Won(slot, r)
  }

  function Search(readA: bool, a: seq<u8>, readB: bool, b: seq<u8>): Found
    requires |a| == |b| == RECORD
  {
    Offer(Offer(Dead, 0, readA, a), 1, readB, b)
  }

  class Store {
    const dev: Eeprom.Driver
    var generation: u32
    var liveSlot: nat
    var haveLive: bool

    ghost predicate Valid()
      reads this, dev
    {
      dev.Valid() && liveSlot < 2
    }

    ghost function Bytes(): (m: seq<u8>)
      reads dev.mem
    {
      dev.mem[..]
    }

    constructor (dev: Eeprom.Driver)
      requires dev.Valid()
      ensures Valid() && this.dev == dev && generation == 0 && liveSlot == 1 && !haveLive
    {
      this.dev, generation, liveSlot, haveLive := dev, 0, 1, false;
    }

    /** cfg_store_load. `was` is the caller's config, kept unless a record is found. */
    method Load(was: Config) returns (st: Status, out: Config, ghost readA: bool, ghost readB: bool)
      requires Valid()
      modifies this, dev`xact, dev`failTotal, dev`failConsec
      ensures Valid() && Bytes() == old(Bytes())
      ensures var f := Search(readA, Slot(Bytes(), 0), readB, Slot(Bytes(), 1));
              match f
              case Winner(slot, gen, config) =>
                st == Ok && out == config && haveLive && generation == gen && liveSlot == slot
              case Blank => st == Nothing && out == was && !haveLive && generation == 0 && liveSlot == 1
              case Dead => st == Io && out == was && !haveLive && generation == 0 && liveSlot == 1
      ensures (forall k :: old(dev.xact) <= k ==> dev.bus(k).Ack?) ==> readA && readB
    {
      hide Peek, PayloadAt;
      var buf := new u8[RECORD];
      var anyRead, found, bestGen: u32, bestSlot := false, false, 0, 0;
      out := was;
      ghost var best := Dead;
      ghost var read := [false, false];
      var slot := 0;
      while slot < 2
        invariant 0 <= slot <= 2 && |read| == 2 && dev.Valid() && old(dev.xact) <= dev.xact
        invariant Bytes() == old(Bytes())
        invariant slot == 0 ==> best == Dead
        invariant slot == 1 ==> best == Offer(Dead, 0, read[0], Slot(Bytes(), 0))
        invariant slot == 2 ==> best == Search(read[0], Slot(Bytes(), 0), read[1], Slot(Bytes(), 1))
        invariant found == best.Winner? && anyRead == !best.Dead?
        invariant found ==> best == Winner(bestSlot, bestGen, out) && bestSlot < 2
        invariant !found ==> out == was
        invariant (forall k :: old(dev.xact) <= k ==> dev.bus(k).Ack?) ==> forall i :: 0 <= i < slot ==> read[i]
      {
        var ok := dev.Read(SlotAddr(slot), buf, RECORD);
        read := read[slot := ok];
        best := Offer(best, slot, ok, Slot(Bytes(), slot));
        if ok {
          anyRead := true;
          assert buf[..RECORD] == Slot(Bytes(), slot);
          var peeked := ConfigPacker.PeekFrame(buf, RECORD);
          if peeked.Frame? && (!found || Newer(peeked.generation, bestGen)) {
            var r, c := ConfigPacker.DecodeRecord(buf, RECORD, out);
            found, bestGen, bestSlot, out := true, peeked.generation, slot, c;
          }
        }
        slot := slot + 1;
      }
      readA, readB := read[0], read[1];
      if !found {
        haveLive, generation, liveSlot := false, 0, 1;
        st := if anyRead then Nothing else Io;
      } else {
        haveLive, generation, liveSlot := true, bestGen, bestSlot;
        st := Ok;
      }
    }

    /** The read-back of a save: the slot must hold the record that was written. */
    method ReadBack(slot: nat, gen: u32, buf: array<u8>, ghost c: Config) returns (st: Status)
      requires Valid() && slot < 2 && buf.Length == RECORD && buf[..] == RecordBytes(c, gen)
      modifies dev`xact, dev`failTotal, dev`failConsec
      ensures Valid() && Bytes() == old(Bytes()) && old(dev.xact) <= dev.xact && st != Nothing
      ensures st == Ok ==> Slot(Bytes(), slot) == buf[..]
      ensures st == Mismatch ==> Slot(Bytes(), slot) != buf[..]
      ensures (forall k :: old(dev.xact) <= k ==> dev.bus(k).Ack?) ==> st != Io
    {
      hide RecordBytes, Peek;
      var rb := new u8[RECORD];
      var ok := dev.Read(SlotAddr(slot), rb, RECORD);
      if !ok { return Io; }
      assert rb[..] == rb[..RECORD] == Slot(Bytes(), slot);
      var peeked := ConfigPacker.PeekFrame(rb, RECORD);
      RecordPeeks(c, gen);
      if peeked.Reject? || peeked.generation != gen { return Mismatch; }
      var i := 0;
      while i < RECORD
        invariant 0 <= i <= RECORD && rb[..i] == buf[..i]
      {
        if rb[i] != buf[i] {
          assert rb[..][i] != buf[..][i];
          return Mismatch;
        }
        i := i + 1;
      }
      assert buf[..] == buf[..RECORD];
      st := Ok;
    }

    /** cfg_store_save. Whatever happens, only the standby record can change; on Ok it
        holds exactly the new record, even on a part that loses writes. */
    method Save(c: Config) returns (st: Status)
      requires Valid()
      modifies this, dev, dev.mem
      ensures Valid() && st != Nothing
      ensures Eeprom.Blend(old(Bytes()), Bytes(), SlotAddr(1 - old(liveSlot)), RecordBytes(c, NextGen(old(generation))))
      ensures dev.Honest(old(dev.xact)) ==>
                exists n :: 0 <= n <= RECORD && Bytes() == Eeprom.Flat(old(Bytes()), SlotAddr(1 - old(liveSlot)),
                                                  RecordBytes(c, NextGen(old(generation)))[..n])
      ensures st == Ok ==> Slot(Bytes(), 1 - old(liveSlot)) == RecordBytes(c, NextGen(old(generation)))
      ensures st == Ok ==> generation == NextGen(old(generation)) && liveSlot == 1 - old(liveSlot) && haveLive
      ensures st != Ok ==> generation == old(generation) && liveSlot == old(liveSlot) && haveLive == old(haveLive)
      ensures st == Mismatch ==> !dev.Honest(old(dev.xact))
      ensures (forall k :: old(dev.xact) <= k ==> dev.bus(k).Ack?) ==> st == Ok
    {
      hide RecordBytes, Peek, Eeprom.Flat, Eeprom.Blend;
      var slot := 1 - liveSlot;
      var gen := NextGen(generation);
      ghost var next := RecordBytes(c, gen);
      var buf := new u8[RECORD];
      var n := ConfigPacker.Encode(c, gen, buf);
      assert buf[..] == buf[..RECORD] == next;
      FlatSlot(Bytes(), slot, next);
      var ok := dev.Write(SlotAddr(slot), buf[..]);
      if !ok { return Io; }
      assert dev.Honest(old(dev.xact)) ==> Slot(Bytes(), slot) == next;
      assert next[..RECORD] == next;
      st := ReadBack(slot, gen, buf, c);
      if st != Ok { return; }
      generation, liveSlot, haveLive := gen, slot, true;
    }
  }

  lemma FlatSlot(m: seq<u8>, slot: nat, next: seq<u8>)
    requires |m| == Eeprom.SIZE && |next| == RECORD
    ensures Slot(Eeprom.Flat(m, SlotAddr(slot), next), slot) == next
  {}

  lemma RecordPeeks(c: Config, g: u32)
    ensures Peek(RecordBytes(c, g)) == Frame(g)
  {
    DecodeEncode(c, g);
  }

  /** Each slot has the 1024 bytes from its address on to itself. */
  lemma SlotsLie(m: seq<u8>)
    requires |m| == Eeprom.SIZE
    ensures Slot(m, 0) == m[0..312] && Slot(m, 1) == m[1024..1336]
  {}

  predicate Ahead(b: u32, a: u32) { 1 <= (b - a) % 0x1_0000_0000 < 0x8000_0000 }

  /** Of two records the second is loaded exactly if it is the only valid one or its generation is
      less than half a wrap ahead of the first one's. */
  lemma NewestIsLoaded(a: seq<u8>, b: seq<u8>)
    requires |a| == |b| == RECORD
    ensures var f := Search(true, a, true, b);
            var later := ConfigFrame.Valid(b) && (ConfigFrame.Valid(a) ==> Ahead(GenOf(b), GenOf(a)));
            if later then f == Won(1, b) else if ConfigFrame.Valid(a) then f == Won(0, a) else f == Blank
  {
    hide Peek, PayloadAt;
  }
}
