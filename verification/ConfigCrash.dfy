/** The config store over whole lives of a device: loads, saves that succeed, saves that
    fail, and power cuts in the middle of a save, in any order and number. */
module ConfigCrash {
  import opened Words
  import opened ConfigCodec
  import opened ConfigFrame
  import opened ConfigStore
  import Eeprom

  datatype Disk = Disk(a: seq<u8>, b: seq<u8>)

  /** What the store keeps in RAM between a load and the next power cut. */
  datatype Ram = Ram(generation: u32, live: nat, have: bool)

  datatype Session = Off | On(ram: Ram)

  /** `last` is the config of the last successful save, `tried` those of the later
      attempts. */
  datatype Life = Life(disk: Disk, session: Session, last: set<Config>, tried: set<Config>)

  datatype Event =
    | PowerOff
    | Boot
    | SaveOk(c: Config)
    | SaveFailed(c: Config, residue: seq<u8>)
    | CutDuringSave(c: Config, residue: seq<u8>)

  ghost predicate DiskOk(d: Disk) { |d.a| == |d.b| == RECORD }

  function Get(d: Disk, slot: nat): seq<u8> { if slot == 0 then d.a else d.b }

  function Put(d: Disk, slot: nat, r: seq<u8>): Disk { if slot == 0 then d.(a := r) else d.(b := r) }

  function LoadedRam(f: Found): Ram
  {
    if f.Winner? then Ram(f.generation, f.slot, true) else Ram(0, 1, false)
  }

  function Loaded(d: Disk): Found
    requires DiskOk(d)
  {
    Search(true, d.a, true, d.b)
  }

  /** What an unfinished save may leave in the standby slot: any mixture of old and new
      bytes, provided a mixture that is neither record does not pass the frame check. */
  ghost predicate Residue(was: seq<u8>, next: seq<u8>, r: seq<u8>)
  {
    && |r| == |was| == |next| == RECORD
    && (forall i :: 0 <= i < RECORD ==> r[i] == was[i] || r[i] == next[i])
    && (r == was || r == next || !Valid(r))
  }

  function Standby(m: Ram): nat { if m.live == 0 then 1 else 0 }

  function NextRecord(m: Ram, c: Config): seq<u8> { RecordBytes(c, NextGen(m.generation)) }

  ghost predicate Enabled(l: Life, e: Event)
    requires DiskOk(l.disk)
  {
    match e
    case PowerOff => true
    case Boot => true
    case SaveOk(c) => l.session.On?
    case SaveFailed(c, r) => l.session.On? && Residue(Get(l.disk, Standby(l.session.ram)), NextRecord(l.session.ram, c), r)
    case CutDuringSave(c, r) => l.session.On? && Residue(Get(l.disk, Standby(l.session.ram)), NextRecord(l.session.ram, c), r)
  }

  ghost function Apply(l: Life, e: Event): Life
    requires DiskOk(l.disk) && Enabled(l, e)
  {
    match e
    case PowerOff => l.(session := Off)
    case Boot => l.(session := On(LoadedRam(Loaded(l.disk))))
    case SaveOk(c) =>
      var m := l.session.ram;
      Life(Put(l.disk, Standby(m), NextRecord(m, c)),
           On(Ram(NextGen(m.generation), Standby(m), true)), {c}, {})
    case SaveFailed(c, r) =>
      l.(disk := Put(l.disk, Standby(l.session.ram), r), tried := l.tried + {c})
    case CutDuringSave(c, r) =>
      l.(disk := Put(l.disk, Standby(l.session.ram), r), tried := l.tried + {c}, session := Off)
  }

  // ---- where the events come from ----------------------------------------------------

  lemma SlotAt(m: seq<u8>, slot: nat, i: nat)
    requires |m| == Eeprom.SIZE && slot < 2 && i < RECORD
    ensures Slot(m, slot)[i] == m[SlotAddr(slot) + i]
  {}

  /** A save that failed changed its standby slot alone, byte by byte from old to new. */
  lemma SaveLeavesMixture(m: seq<u8>, after: seq<u8>, slot: nat, next: seq<u8>)
    requires |m| == |after| == Eeprom.SIZE && slot < 2 && |next| == RECORD
    requires Eeprom.Blend(m, after, SlotAddr(slot), next)
    ensures Slot(after, 1 - slot) == Slot(m, 1 - slot)
    ensures forall i :: 0 <= i < RECORD ==>
              Slot(after, slot)[i] == Slot(m, slot)[i] || Slot(after, slot)[i] == next[i]
  {
    var (at, other) := (SlotAddr(slot), SlotAddr(1 - slot));
    forall i | 0 <= i < RECORD
      ensures Slot(after, 1 - slot)[i] == Slot(m, 1 - slot)[i]
      ensures Slot(after, slot)[i] == Slot(m, slot)[i] || Slot(after, slot)[i] == next[i]
    {
      SlotAt(m, slot, i);
      SlotAt(after, slot, i);
      SlotAt(m, 1 - slot, i);
      SlotAt(after, 1 - slot, i);
      assert after[other + i] == m[other + i];
      assert after[at + i] == m[at + i] || after[at + i] == next[i];
    }
  }

  /** On a part that keeps what it acknowledged, the mixture is a torn write. */
  lemma HonestMixtureIsTorn(m: seq<u8>, slot: nat, next: seq<u8>, n: nat)
    requires |m| == Eeprom.SIZE && slot < 2 && |next| == RECORD && n <= RECORD
    ensures Slot(Eeprom.Flat(m, SlotAddr(slot), next[..n]), slot) == Torn(Slot(m, slot), next, n)
  {
    var at := SlotAddr(slot);
    var after := Eeprom.Flat(m, at, next[..n]);
    forall i | 0 <= i < RECORD ensures Slot(after, slot)[i] == Torn(Slot(m, slot), next, n)[i] {
      assert after[at + i] == if i < n then next[i] else m[at + i];
    }
  }

  /** The cuts whose mixture the CRC is proved to reject, so that they need no
      hypothesis: any cut once the body is complete; over a record of ours, any cut in
      the header page; over a record of the same config, any cut at all. */
  lemma CutIsResidue(was: seq<u8>, c: Config, g: u32, n: nat, d: Config, h: u32)
    requires |was| == RECORD && n <= RECORD
    requires BODY <= n || (was == RecordBytes(d, h) && (n <= HEADER || d == c))
    ensures Residue(was, RecordBytes(c, g), Torn(was, RecordBytes(c, g), n))
  {
    hide RecordBytes, Peek;
    if BODY <= n {
      TrailerCutRejected(was, c, g, n);
    } else if n <= HEADER {
      HeaderCutRejected(d, h, c, g, n);
    } else {
      ResaveCutRejected(c, h, g, n);
    }
  }

  // ---- what every life keeps ---------------------------------------------------------

  /** Valid slots are always exactly one generation apart. */
  ghost predicate Consecutive(d: Disk)
    requires DiskOk(d)
  {
    Valid(d.a) && Valid(d.b) ==> GenOf(d.a) == NextGen(GenOf(d.b)) || GenOf(d.b) == NextGen(GenOf(d.a))
  }

  ghost predicate Known(l: Life, r: seq<u8>) { ConfigOf(r) in l.last + l.tried }

  /** Once a save has succeeded, a load finds its config or a later attempt. */
  ghost predicate Recoverable(l: Life)
    requires DiskOk(l.disk)
  {
    l.last != {} ==> Loaded(l.disk).Winner? && Loaded(l.disk).config in l.last + l.tried
  }

  /** While the store is up, the live slot is what RAM says, and the standby slot is
      invalid, one generation behind, or a complete attempt one generation ahead. */
  ghost predicate SessionOk(l: Life)
    requires DiskOk(l.disk) && l.session.On?
  {
    var m := l.session.ram;
    var (live, other) := (Get(l.disk, m.live), Get(l.disk, Standby(m)));
    && m.live < 2
    && (m.have ==> Valid(live) && GenOf(live) == m.generation && (l.last != {} ==> Known(l, live)))
    && (!m.have ==> !Valid(live) && l.last == {})
    && (Valid(other) ==>
          || (m.have && NextGen(GenOf(other)) == m.generation)
          || (GenOf(other) == NextGen(m.generation) && (l.last != {} ==> Known(l, other))))
  }

  ghost predicate LifeOk(l: Life)
  {
    && DiskOk(l.disk) && Consecutive(l.disk) && Recoverable(l)
    && (l.session.On? ==> SessionOk(l))
  }

  lemma NextIsNewer(g: u32)
    ensures Newer(NextGen(g), g) && !Newer(g, NextGen(g)) && NextGen(g) != g
  {}

  /** The slot a load picks, from which slots are valid and which is one ahead. */
  lemma LoadPicks(d: Disk, slot: nat)
    requires DiskOk(d) && slot < 2 && Valid(Get(d, slot))
    requires Valid(Get(d, 1 - slot)) ==> GenOf(Get(d, slot)) == NextGen(GenOf(Get(d, 1 - slot)))
    ensures Loaded(d) == Won(slot, Get(d, slot))
  {
    if Valid(Get(d, 1 - slot)) { NextIsNewer(GenOf(Get(d, 1 - slot))); }
  }

  lemma LoadFindsNothing(d: Disk)
    requires DiskOk(d) && !Valid(d.a) && !Valid(d.b)
    ensures Loaded(d) == Blank
  {}

  lemma RecordReadsBack(c: Config, g: u32)
    ensures Valid(RecordBytes(c, g)) && GenOf(RecordBytes(c, g)) == g && ConfigOf(RecordBytes(c, g)) == c
  {
    DecodeEncode(c, g);
  }

  /** A session's picture of the disk settles what a later load will find. */
  lemma SessionRecoverable(l: Life)
    requires DiskOk(l.disk) && l.session.On? && SessionOk(l)
    ensures Consecutive(l.disk) && Recoverable(l)
  {
    hide Peek, PayloadAt, RecordBytes, Decode;
    var m := l.session.ram;
    var (live, other) := (Get(l.disk, m.live), Get(l.disk, Standby(m)));
    NextIsNewer(m.generation);
    if Valid(other) && GenOf(other) == NextGen(m.generation) {
      LoadPicks(l.disk, Standby(m));
    } else if m.have {
      LoadPicks(l.disk, m.live);
    }
  }

  lemma BootKeepsOk(l: Life)
    requires LifeOk(l)
    ensures LifeOk(Apply(l, Boot))
  {
    var d := l.disk;
    if Valid(d.a) && (!Valid(d.b) || GenOf(d.a) == NextGen(GenOf(d.b))) {
      LoadPicks(d, 0);
    } else if Valid(d.b) {
      LoadPicks(d, 1);
    } else {
      LoadFindsNothing(d);
    }
  }

  lemma SaveOkKeepsOk(l: Life, c: Config)
    requires LifeOk(l) && l.session.On?
    ensures LifeOk(Apply(l, SaveOk(c)))
  {
    hide RecordBytes, Peek, PayloadAt;
    var m := l.session.ram;
    RecordReadsBack(c, NextGen(m.generation));
    SessionRecoverable(Apply(l, SaveOk(c)));
  }

  /** An unfinished save leaves a disk the running session still describes. */
  lemma FailedKeepsSession(l: Life, c: Config, r: seq<u8>)
    requires LifeOk(l) && Enabled(l, SaveFailed(c, r))
    ensures DiskOk(Apply(l, SaveFailed(c, r)).disk) && SessionOk(Apply(l, SaveFailed(c, r)))
  {
    hide RecordBytes, Peek, PayloadAt;
    RecordReadsBack(c, NextGen(l.session.ram.generation));
  }

  lemma EventKeepsOk(l: Life, e: Event)
    requires LifeOk(l) && Enabled(l, e)
    ensures LifeOk(Apply(l, e))
  {
    match e
    case PowerOff =>
    case Boot => BootKeepsOk(l);
    case SaveOk(c) => SaveOkKeepsOk(l, c);
    case SaveFailed(c, r) =>
      FailedKeepsSession(l, c, r);
      SessionRecoverable(Apply(l, SaveFailed(c, r)));
    case CutDuringSave(c, r) =>
      FailedKeepsSession(l, c, r);
      SessionRecoverable(Apply(l, SaveFailed(c, r)));
  }

  // ---- whole lives ---------------------------------------------------------------------

  ghost predicate Next(l: Life, k: Life) { DiskOk(l.disk) && exists e :: Enabled(l, e) && k == Apply(l, e) }

  /** A life starts switched off, on a disk without two valid records that are not
      consecutive; a factory-blank part is one. */
  ghost predicate IsLife(h: seq<Life>)
  {
    && |h| > 0 && DiskOk(h[0].disk) && Consecutive(h[0].disk)
    && h[0].session.Off? && h[0].last == {} && h[0].tried == {}
    && forall k :: 0 <= k < |h| - 1 ==> Next(h[k], h[k + 1])
  }

  lemma {:induction false} LivesStayOk(h: seq<Life>, k: nat)
    requires IsLife(h) && k < |h|
    ensures LifeOk(h[k])
  {
    if k > 0 {
      LivesStayOk(h, k - 1);
      assert Next(h[k - 1], h[k - 1 + 1]);
      var e :| Enabled(h[k - 1], e) && h[k] == Apply(h[k - 1], e);
      EventKeepsOk(h[k - 1], e);
    }
  }

  /** Power-fail safety: at any point of any life after a successful save, the next load
      returns that save's config or one attempted since, never nothing. */
  lemma LoadNeverLosesConfig(h: seq<Life>, k: nat)
    requires IsLife(h) && k < |h| && h[k].last != {}
    ensures DiskOk(h[k].disk)
    ensures Loaded(h[k].disk).Winner? && Loaded(h[k].disk).config in h[k].last + h[k].tried
  {
    LivesStayOk(h, k);
  }

  // ---- when an interrupted save leaves the previous record newest ---------------------------------

  /** The standby slot already holds a complete attempt that was reported as failed. */
  ghost predicate HoldsAttempt(l: Life)
    requires DiskOk(l.disk) && l.session.On?
  {
    var other := Get(l.disk, Standby(l.session.ram));
    Valid(other) && GenOf(other) == NextGen(l.session.ram.generation)
  }

  /** A save that fails or is cut off leaves the live record as it was. A load then finds it, as
      the header of the store promises, if and only if what the save left behind is neither the
      complete new record nor a complete earlier attempt it did not get to change. */
  lemma InterruptedSaveKeepsPrevious(l: Life, c: Config, r: seq<u8>)
    requires LifeOk(l) && l.session.On? && l.session.ram.have && Enabled(l, SaveFailed(c, r))
    ensures Enabled(l, CutDuringSave(c, r))
    ensures var (m, d) := (l.session.ram, Apply(l, SaveFailed(c, r)).disk);
            && Apply(l, CutDuringSave(c, r)).disk == d && DiskOk(d) && Get(d, m.live) == Get(l.disk, m.live)
            && Valid(Get(l.disk, m.live))
            && (Loaded(d) == Won(m.live, Get(l.disk, m.live)) <==>
                  r != NextRecord(m, c) && !(HoldsAttempt(l) && r == Get(l.disk, Standby(m))))
  {
    hide RecordBytes, Peek, PayloadAt;
    var m := l.session.ram;
    var d := Apply(l, SaveFailed(c, r)).disk;
    RecordReadsBack(c, NextGen(m.generation));
    FailedKeepsSession(l, c, r);
    NextIsNewer(m.generation);
    if Valid(r) && GenOf(r) == NextGen(m.generation) {
      LoadPicks(d, Standby(m));
    } else {
      LoadPicks(d, m.live);
    }
  }

  /** A part that was never written. */
  function BlankDisk(): Disk { Disk(seq(RECORD, _ => 0), seq(RECORD, _ => 0)) }

  lemma BlankIsInvalid()
    ensures DiskOk(BlankDisk()) && !Valid(BlankDisk().a) && !Valid(BlankDisk().b)
  {
    assert BlankDisk().a[0] == 0;
    assert BlankDisk().a[..4] != MAGIC;
  }

  /** Power up, save `c`, then a save of `d` that writes everything and is reported as failed. */
  ghost function Betrayed(c: Config, d: Config): seq<Life>
  {
    var l0 := Life(BlankDisk(), Off, {}, {});
    var l1 := Life(BlankDisk(), On(Ram(0, 1, false)), {}, {});
    var first := RecordBytes(c, 1);
    var l2 := Life(Disk(first, BlankDisk().b), On(Ram(1, 0, true)), {c}, {});
    [l0, l1, l2, Life(Disk(first, RecordBytes(d, 2)), l2.session, {c}, {d})]
  }

  lemma BetrayedSteps(c: Config, d: Config)
    ensures var h := Betrayed(c, d); Next(h[0], h[1]) && Next(h[1], h[2]) && Next(h[2], h[3])
  {
    BlankIsInvalid();
    var h := Betrayed(c, d);
    hide RecordBytes, Peek, PayloadAt;
    assert Enabled(h[0], Boot) && Apply(h[0], Boot) == h[1];
    assert Enabled(h[1], SaveOk(c)) && Apply(h[1], SaveOk(c)) == h[2];
    var r := RecordBytes(d, 2);
    assert Enabled(h[2], SaveFailed(d, r)) && Apply(h[2], SaveFailed(d, r)) == h[3];
  }

  lemma BetrayedIsLife(c: Config, d: Config)
    ensures IsLife(Betrayed(c, d))
  {
    BlankIsInvalid();
    BetrayedSteps(c, d);
    hide Next, RecordBytes, Peek;
  }

  /** So the last saved config is not always the one that is loaded: here it is another one,
      whose save was reported as failed. */
  lemma FailedSaveCanWin(c: Config, d: Config)
    requires c != d
    ensures var h := Betrayed(c, d);
            IsLife(h) && h[3].last == {c} && DiskOk(h[3].disk) && Loaded(h[3].disk) == Winner(1, 2, d)
  {
    hide RecordBytes, Peek, PayloadAt, IsLife;
    BetrayedIsLife(c, d);
    RecordReadsBack(c, 1);
    RecordReadsBack(d, 2);
    LoadPicks(Betrayed(c, d)[3].disk, 1);
  }

  // ---- the store takes these steps -----------------------------------------------------------------

  function DiskOf(m: seq<u8>): (d: Disk)
    requires |m| == Eeprom.SIZE
    ensures |d.a| == |d.b| == RECORD
  {
    Disk(Slot(m, 0), Slot(m, 1))
  }

  function RamOf(s: Store): Ram
    reads s
  {
    Ram(s.generation, s.liveSlot, s.haveLive)
  }

  /** cfg_store_load with both slots readable is a Boot. */
  method LoadIsBoot(s: Store, was: Config, ghost l: Life) returns (st: Status, out: Config, ghost readable: bool)
    requires s.Valid() && l.disk == DiskOf(s.Bytes())
    modifies s, s.dev`xact, s.dev`failTotal, s.dev`failConsec
    ensures s.Valid() && s.Bytes() == old(s.Bytes())
    ensures readable ==>
              && Enabled(l, Boot) && Apply(l, Boot) == Life(DiskOf(s.Bytes()), On(RamOf(s)), l.last, l.tried)
              && (st == Ok <==> Loaded(l.disk).Winner?) && (st == Ok ==> out == Loaded(l.disk).config)
    ensures (forall k :: old(s.dev.xact) <= k ==> s.dev.bus(k).Ack?) ==> readable
  {
    hide Peek, PayloadAt;
    ghost var readA, readB;
    st, out, readA, readB := s.Load(was);
    readable := readA && readB;
  }

  /** cfg_store_save is a SaveOk or a SaveFailed: whatever the bus does the standby slot becomes a
      mixture of old and new bytes. That a mixture which is neither record fails the frame
      check is the one thing the driver cannot promise. */
  method SaveIsEvent(s: Store, c: Config, ghost l: Life) returns (st: Status, ghost e: Event)
    requires s.Valid() && l.disk == DiskOf(s.Bytes()) && l.session == On(RamOf(s))
    modifies s, s.dev, s.dev.mem
    ensures s.Valid()
    ensures var (was, next) := (Get(l.disk, Standby(l.session.ram)), NextRecord(l.session.ram, c));
            var r := Get(DiskOf(s.Bytes()), Standby(l.session.ram));
            && (forall i :: 0 <= i < RECORD ==> r[i] == was[i] || r[i] == next[i])
            && e == (if st == Ok then SaveOk(c) else SaveFailed(c, r))
            && (st == Ok || r == was || r == next || !Valid(r) ==>
                  Enabled(l, e) && Apply(l, e).disk == DiskOf(s.Bytes()) && Apply(l, e).session == On(RamOf(s)))
  {
    hide RecordBytes, Peek, PayloadAt, Eeprom.Blend, Slot;
    ghost var m := l.session.ram;
    ghost var before := s.Bytes();
    st := s.Save(c);
    SaveLeavesMixture(before, s.Bytes(), Standby(m), NextRecord(m, c));
    e := if st == Ok then SaveOk(c) else SaveFailed(c, Get(DiskOf(s.Bytes()), Standby(m)));
  }
}
