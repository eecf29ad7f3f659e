/** The CDC byte pipes of Core/Src/usb_cdc.c as a machine of interleaved steps: the
    interrupt handlers run whole, the main loop's read and write byte by byte. */
module UsbPipe {
  import opened Words

  const MPS: nat := 64
  const RX_ROOM: nat := 255
  const TX_ROOM: nat := 3071

  /** Where the main loop is inside usb_cdc_write and usb_cdc_read. */
  datatype Write = NoWrite | Writing(buf: seq<u8>, n: nat) | Kicking(taken: nat)
  datatype Read = NoRead | Reading(cap: nat, got: seq<u8>) | Rearming

  /** The driver's state, and the history its promises are about. */
  datatype Cdc = Cdc(
    ok: bool, configured: bool,
    txq: seq<u8>, txBusy: bool, txLast: nat,
    rxq: seq<u8>, rxPaused: bool, rxArmed: bool,
    dropped: u32, write: Write, read: Read,
    accepted: seq<u8>, handed: seq<u8>, offered: nat,
    received: seq<u8>, delivered: seq<u8>,
    /* lengths of the IN packets since the endpoints were last opened */
    packets: seq<nat>)

  function Initial(ok: bool): Cdc
  {
    Cdc(ok, false, [], false, 0, [], false, false, 0, NoWrite, NoRead, [], [], 0, [], [], [])
  }

  /** tx_kick: the next packet, or the zero-length one after a full last packet. */
  function Kick(c: Cdc): Cdc
  {
    if !c.configured || c.txBusy then c
    else if c.txq == [] then
      if c.txLast == MPS then c.(txLast := 0, txBusy := true, packets := c.packets + [0]) else c
    else
      var n := Min(|c.txq|, MPS);
      c.(txq := c.txq[n..], handed := c.handed + c.txq[..n], txLast := n, txBusy := true, packets := c.packets + [n])
  }

  /** rx_arm: receive only what certainly fits. */
  function Arm(c: Cdc): Cdc
  {
    if |c.rxq| + MPS <= RX_ROOM then c.(rxPaused := false, rxArmed := true) else c.(rxPaused := true)
  }

  datatype Event =
    | DataIn
    | DataOut(packet: seq<u8>)
    | Reset
    | SetConfiguration(value: u8)
    | WriteStart(data: seq<u8>)
    | WriteByte
    | WriteStop
    | WriteKick
    | ReadStart(size: nat)
    | ReadByte
    | ReadCommit
    | ReadRearm

  predicate Enabled(c: Cdc, e: Event)
  {
    match e
    case DataIn => c.ok && c.configured && c.txBusy
    case DataOut(p) => c.ok && c.configured && c.rxArmed && |p| <= MPS
    case Reset => c.ok
    case SetConfiguration(_) => c.ok
    case WriteStart(d) => c.write.NoWrite? && d != []
    case WriteByte => c.write.Writing? && c.write.n < |c.write.buf| && |c.txq| < TX_ROOM
    case WriteStop => c.write.Writing? && c.write.n <= |c.write.buf| && (c.write.n == |c.write.buf| || |c.txq| == TX_ROOM)
    case WriteKick => c.write.Kicking?
    case ReadStart(size) => c.read.NoRead? && size > 0
    case ReadByte => c.read.Reading? && |c.read.got| < c.read.cap && |c.read.got| < |c.rxq|
    case ReadCommit => c.read.Reading? && |c.read.got| <= |c.rxq|
    case ReadRearm => c.read.Rearming?
  }

  function Step(c: Cdc, e: Event): Cdc
    requires Enabled(c, e)
  {
    match e
    case DataIn => Kick(c.(txBusy := false))
    case DataOut(p) => Arm(c.(rxq := c.rxq + p, received := c.received + p, rxArmed := false))
    case Reset => c.(configured := false, txBusy := false, rxPaused := false, txLast := 0, rxArmed := false, packets := [])
    case SetConfiguration(v) =>
      if v == 1 then Kick(Arm(c.(configured := true, txBusy := false, txLast := 0, rxArmed := false, packets := [])))
      else if v == 0 then c.(configured := false, rxArmed := false)
      else c
    case WriteStart(d) =>
      var o := c.(offered := c.offered + |d|);
      if !c.ok || !c.configured then o.(dropped := Wrap32(c.dropped + |d|)) else o.(write := Writing(d, 0))
    case WriteByte =>
      var b := [c.write.buf[c.write.n]];
      c.(txq := c.txq + b, accepted := c.accepted + b, write := Writing(c.write.buf, c.write.n + 1))
    case WriteStop =>
      c.(dropped := Wrap32(c.dropped + |c.write.buf| - c.write.n), write := Kicking(c.write.n))
    case WriteKick => (if c.write.taken > 0 then Kick(c) else c).(write := NoWrite)
    case ReadStart(size) => c.(read := Reading(size, []))
    case ReadByte => c.(read := Reading(c.read.cap, c.read.got + [c.rxq[|c.read.got|]]))
    case ReadCommit =>
      var n := |c.read.got|;
      c.(rxq := c.rxq[n..], delivered := c.delivered + c.read.got, read := Rearming)
    case ReadRearm => (if c.rxPaused && c.ok then Arm(c) else c).(read := NoRead)
  }

  // ---- what every interleaving keeps ---------------------------------------------------------

  /** Bytes offered to a write in progress whose fate is not decided yet. */
  function Undecided(c: Cdc): int { if c.write.Writing? then |c.write.buf| - c.write.n else 0 }

  /** Nothing is lost, duplicated or reordered on the way to the host. */
  ghost predicate TxConserved(c: Cdc)
  {
    && |c.txq| <= TX_ROOM && c.handed + c.txq == c.accepted
    && Undecided(c) >= 0 && c.dropped == Wrap32(c.offered - |c.accepted| - Undecided(c))
  }

  /** Nor on the way from the host, and what a read has copied is what it will take. */
  ghost predicate RxConserved(c: Cdc)
  {
    && |c.rxq| <= RX_ROOM && c.delivered + c.rxq == c.received
    && (c.read.Reading? ==> c.read.got <= c.rxq && |c.read.got| <= c.read.cap)
  }

  /** An armed endpoint has room for a whole packet. An open endpoint is armed, or paused
      with a read under way or the ring too full. */
  ghost predicate FlowControlled(c: Cdc)
  {
    && (c.rxArmed ==> |c.rxq| + MPS <= RX_ROOM)
    && (c.configured ==> c.ok && (c.rxArmed || c.rxPaused))
    && (c.configured && c.rxPaused && !c.read.Rearming? ==> c.rxArmed || |c.rxq| + MPS > RX_ROOM)
  }

  /** A write has put bytes into the ring that it has not kicked yet. */
  predicate Unkicked(c: Cdc) { (c.write.Writing? && c.write.n > 0) || (c.write.Kicking? && c.write.taken > 0) }

  /** An idle endpoint has nothing to send, and its last packet was not a full one. */
  ghost predicate TransfersEnd(c: Cdc)
  {
    && c.txLast == (if c.packets == [] then 0 else c.packets[|c.packets| - 1])
    && (c.configured && !c.txBusy ==> c.txLast != MPS && (!Unkicked(c) ==> c.txq == []))
    && (forall k :: 0 <= k < |c.packets| ==> c.packets[k] <= MPS)
    && (forall k :: 0 <= k < |c.packets| && c.packets[k] == 0 ==> k > 0 && c.packets[k - 1] == MPS)
  }

  ghost predicate Inv(c: Cdc) { TxConserved(c) && RxConserved(c) && FlowControlled(c) && TransfersEnd(c) }

  lemma KickKeepsInv(c: Cdc)
    requires TxConserved(c) && RxConserved(c) && FlowControlled(c)
    requires TransfersEnd(c) || (TransfersEnd(c.(txBusy := true)) && !c.txBusy)
    ensures Inv(Kick(c)) && (c.configured ==> Kick(c).txBusy || (Kick(c).txq == [] && Kick(c).txLast != MPS))
    ensures Kick(c).write == c.write && Kick(c).configured == c.configured
  {}

  lemma CountKeepsInv(c: Cdc, e: Event)
    requires Inv(c) && Enabled(c, e) && (e.WriteStart? || e.WriteStop?)
    ensures Inv(Step(c, e))
  {
    hide Wrap32;
    if e.WriteStart? {
      WrapAdd(c.offered - |c.accepted|, |e.data|);
    } else {
      WrapAdd(c.offered - |c.accepted| - Undecided(c), |c.write.buf| - c.write.n);
    }
  }

  lemma WriteKeepsInv(c: Cdc, e: Event)
    requires Inv(c) && Enabled(c, e) && (e.WriteByte? || e.WriteKick?)
    ensures Inv(Step(c, e))
  {
    hide Kick, Wrap32;
    if e.WriteKick? { KickKeepsInv(c); }
  }

  lemma ReadKeepsInv(c: Cdc, e: Event)
    requires Inv(c) && Enabled(c, e) && (e.DataOut? || e.ReadStart? || e.ReadByte? || e.ReadCommit? || e.ReadRearm?)
    ensures Inv(Step(c, e))
  {
    hide Kick, TransfersEnd;
    assert TransfersEnd(Step(c, e)) by { ReadLeavesTx(c, e); }
  }

  lemma ReadLeavesTx(c: Cdc, e: Event)
    requires Inv(c) && Enabled(c, e) && (e.DataOut? || e.ReadStart? || e.ReadByte? || e.ReadCommit? || e.ReadRearm?)
    ensures TransfersEnd(Step(c, e))
  {}

  lemma BusKeepsInv(c: Cdc, e: Event)
    requires Inv(c) && Enabled(c, e) && (e.DataIn? || e.Reset? || e.SetConfiguration?)
    ensures Inv(Step(c, e))
  {
    hide Kick;
    match e
    case DataIn => KickKeepsInv(c.(txBusy := false));
    case Reset =>
    case SetConfiguration(v) =>
      if v == 1 {
        KickKeepsInv(Arm(c.(configured := true, txBusy := false, txLast := 0, rxArmed := false, packets := [])));
      }
  }

  lemma StepKeepsInv(c: Cdc, e: Event)
    requires Inv(c) && Enabled(c, e)
    ensures Inv(Step(c, e))
  {
    hide Inv, Step;
    match e
    case DataIn => BusKeepsInv(c, e);
    case Reset => BusKeepsInv(c, e);
    case SetConfiguration(_) => BusKeepsInv(c, e);
    case WriteStart(_) => CountKeepsInv(c, e);
    case WriteByte => WriteKeepsInv(c, e);
    case WriteStop => CountKeepsInv(c, e);
    case WriteKick => WriteKeepsInv(c, e);
    case DataOut(_) => ReadKeepsInv(c, e);
    case ReadStart(_) => ReadKeepsInv(c, e);
    case ReadByte => ReadKeepsInv(c, e);
    case ReadCommit => ReadKeepsInv(c, e);
    case ReadRearm => ReadKeepsInv(c, e);
  }

  // ---- whole runs --------------------------------------------------------------------------------

  ghost predicate Next(c: Cdc, d: Cdc) { exists e :: Enabled(c, e) && d == Step(c, e) }

  ghost predicate IsRun(r: seq<Cdc>)
  {
    && |r| > 0 && (r[0] == Initial(true) || r[0] == Initial(false))
    && forall k :: 0 <= k < |r| - 1 ==> Next(r[k], r[k + 1])
  }

  lemma {:induction false} RunKeepsInv(r: seq<Cdc>, k: nat)
    requires IsRun(r) && k < |r|
    ensures Inv(r[k])
  {
    hide Step, Enabled;
    if k > 0 {
      RunKeepsInv(r, k - 1);
      assert Next(r[k - 1], r[k - 1 + 1]);
      var e :| Enabled(r[k - 1], e) && r[k] == Step(r[k - 1], e);
      StepKeepsInv(r[k - 1], e);
    }
  }

  /** Whatever interrupts whatever: the host gets the accepted bytes in order and without
      gaps, the reader gets the received ones, and between two writes every offered byte
      is accepted or counted as dropped, modulo 2^32. */
  lemma BytesConserved(r: seq<Cdc>, k: nat)
    requires IsRun(r) && k < |r|
    ensures r[k].handed + r[k].txq == r[k].accepted && r[k].delivered + r[k].rxq == r[k].received
    ensures !r[k].write.Writing? ==> Wrap32(|r[k].accepted| + r[k].dropped) == Wrap32(r[k].offered)
  {
    RunKeepsInv(r, k);
    WrapAdd(r[k].offered - |r[k].accepted|, |r[k].accepted|);
  }

  /** The endpoint is never armed without room for a packet, and reception never stalls:
      once no read is under way, an open endpoint is armed or the ring is too full. */
  lemma ReceptionIsSafeAndLive(r: seq<Cdc>, k: nat)
    requires IsRun(r) && k < |r|
    ensures r[k].rxArmed ==> |r[k].rxq| + 64 <= 255
    ensures r[k].configured && r[k].read.NoRead? ==> r[k].rxArmed || |r[k].rxq| + 64 > 255
  {
    RunKeepsInv(r, k);
  }

  /** Transmission never stalls, and every transfer is seen to end: an open idle endpoint
      outside a write has an empty ring and last sent a packet that was not full. A
      zero-length packet is only ever sent after a full one. */
  lemma TransmissionCompletes(r: seq<Cdc>, k: nat)
    requires IsRun(r) && k < |r|
    ensures r[k].configured && !r[k].txBusy && r[k].write.NoWrite? ==>
              r[k].txq == [] && (r[k].packets == [] || r[k].packets[|r[k].packets| - 1] < 64)
    ensures forall j :: 0 <= j < |r[k].packets| && r[k].packets[j] == 0 ==> j > 0 && r[k].packets[j - 1] == 64
  {
    RunKeepsInv(r, k);
  }

  /** A packet is full unless it empties the ring, and nothing is sent while one is under way. */
  lemma PacketsAreFull(c: Cdc)
    ensures var k := Kick(c);
            if !c.configured || c.txBusy then k == c
            else if |c.txq| > 0 then
              k.txBusy && k.txLast == (if |c.txq| < 64 then |c.txq| else 64) && k.packets == c.packets + [k.txLast]
              && k.handed == c.handed + c.txq[..k.txLast] && k.txq == c.txq[k.txLast..]
            else k.txq == [] && (k.txBusy <==> c.txLast == 64)
  {}
}
