/** The rings and flags of Core/Src/usb_cdc.c, step by step as UsbPipe describes them. */
module UsbPort {
  import opened Words
  import opened UsbPipe

  // ---- a ring over an array, one slot always empty -------------------------------------------

  /** The slot `k` places after `r`. */
  function Slot(r: nat, k: nat, size: nat): (i: nat)
    requires r < size && k < size
    ensures i < size
  {
    if r + k < size then r + k else r + k - size
  }

  function UsedSlots(w: nat, r: nat, size: nat): (n: nat)
    requires w < size && r < size
    ensures n < size && Slot(r, n, size) == w
  {
    if w >= r then w - r else w - r + size
  }

  /** The driver's own arithmetic. */
  lemma SlotsAreModular(w: nat, r: nat, k: nat, size: nat)
    requires w < size && r < size && k < size
    ensures Slot(r, k, size) == (r + k) % size && UsedSlots(w, r, size) == (w - r + size) % size
  {
    OneTurn(r + k, size);
    OneTurn(w - r + size, size);
  }

  lemma OneTurn(x: nat, size: nat)
    requires x < 2 * size
    ensures x % size == if x < size then x else x - size
  {}

  lemma NextSlot(r: nat, k: nat, size: nat)
    requires r < size && k + 1 < size
    ensures (Slot(r, k, size) + 1) % size == Slot(r, k + 1, size)
    ensures UsedSlots(Slot(r, k, size), r, size) == k
  {}

  /** The bytes queued in a ring's memory. */
  function Queue(b: seq<u8>, r: nat, n: nat): (q: seq<u8>)
    requires r < |b| && n < |b|
    ensures |q| == n
  {
    seq(n, i requires 0 <= i < n => b[Slot(r, i, |b|)])
  }

  lemma QueuePut(b: seq<u8>, r: nat, n: nat, x: u8)
    requires r < |b| && n + 1 < |b|
    ensures Queue(b[Slot(r, n, |b|) := x], r, n + 1) == Queue(b, r, n) + [x]
    ensures UsedSlots(Slot(r, n + 1, |b|), r, |b|) == n + 1
  {}

  lemma QueueTake(b: seq<u8>, r: nat, n: nat, k: nat)
    requires r < |b| && n < |b| && k <= n
    ensures Queue(b, Slot(r, k, |b|), n - k) == Queue(b, r, n)[k..]
    ensures UsedSlots(Slot(r, n, |b|), Slot(r, k, |b|), |b|) == n - k
  {}

  lemma QueueAt(b: seq<u8>, r: nat, n: nat, i: nat)
    requires r < |b| && n < |b| && i < n
    ensures Queue(b, r, n)[i] == b[Slot(r, i, |b|)]
  {}

  lemma SlotZero(r: nat, size: nat)
    requires r < size
    ensures Slot(r, 0, size) == r
  {}

  class Ring {
    const size: nat
    const buf: array<u8>
    var w: nat
    var r: nat

    ghost predicate Valid()
      reads this
    {
      buf.Length == size && size >= 2 && w < size && r < size
    }

    function Used(): (n: nat)
      requires Valid()
      reads this
    {
      UsedSlots(w, r, size)
    }

    function Free(): nat
      requires Valid()
      reads this
    {
      size - 1 - Used()
    }

    ghost function Contents(): (q: seq<u8>)
      requires Valid()
      reads this, buf
      ensures |q| == Used()
    {
      Queue(buf[..], r, Used())
    }

    constructor (size: nat)
      requires size >= 2
      ensures Valid() && this.size == size && Contents() == [] && fresh(buf)
    {
      this.size, w, r := size, 0, 0;
      buf := new u8[size];
    }

    method Put(b: u8)
      requires Valid() && Free() > 0
      modifies this`w, buf
      ensures Valid() && Contents() == old(Contents()) + [b]
    {
      hide Queue, UsedSlots, Slot;
      QueuePut(buf[..], r, Used(), b);
      NextSlot(r, Used(), size);
      assert buf[..][w := b] == buf[..][..w] + [b] + buf[..][w + 1..];
      buf[w] := b;
      w := (w + 1) % size;
    }

    /** Copy `k` bytes from the front without freeing them; the slot after the last. */
    method Copy(k: nat, out: array<u8>) returns (at: nat)
      requires Valid() && k <= Used() && k <= out.Length && out != buf
      modifies out
      ensures at == Slot(r, k, size)
      ensures out[..k] == Contents()[..k]
    {
      hide UsedSlots, Slot, Queue;
      at := r;
      SlotZero(r, size);
      var i := 0;
      while i < k
        invariant 0 <= i <= k && at == Slot(r, i, size) && Contents() == old(Contents()) && out[..i] == Contents()[..i]
      {
        out[i] := buf[at];
        QueueAt(buf[..], r, Used(), i);
        if i + 1 < size { NextSlot(r, i, size); }
        at := (at + 1) % size;
        i := i + 1;
      }
    }

    method Take(k: nat, out: array<u8>)
      requires Valid() && k <= Used() && k <= out.Length && out != buf
      modifies this`r, out
      ensures Valid() && Contents() == old(Contents())[k..] && out[..k] == old(Contents())[..k]
    {
      hide Queue, Slot, UsedSlots;
      QueueTake(buf[..], r, Used(), k);
      r := Copy(k, out);
    }
  }

  // ---- the driver ------------------------------------------------------------------------------

  class Port {
    const rx: Ring
    const tx: Ring
    const rxPkt: array<u8>
    const txPkt: array<u8>
    const ok: bool
    var configured: bool
    var rxPaused: bool
    var txBusy: bool
    var txLast: nat
    var dropped: u32
    ghost var c: Cdc

    /** The objects the driver owns, all different. */
    ghost predicate Apart()
      reads this, rx, tx
    {
      && rx != tx && rx.Valid() && tx.Valid() && rx.size == RX_ROOM + 1 && tx.size == TX_ROOM + 1
      && rx.buf != tx.buf && rxPkt != txPkt
      && rxPkt != rx.buf && rxPkt != tx.buf && txPkt != rx.buf && txPkt != tx.buf
      && rxPkt.Length == txPkt.Length == MPS
    }

    /** Flags and rings are those of the machine. */
    ghost predicate Tied()
      reads this, rx, tx, rx.buf, tx.buf
    {
      && Apart() && ok == c.ok && configured == c.configured && rxPaused == c.rxPaused
      && txBusy == c.txBusy && txLast == c.txLast && dropped == c.dropped
      && tx.Contents() == c.txq && rx.Contents() == c.rxq
    }

    constructor (ok: bool)
      ensures Tied() && c == Initial(ok)
      ensures fresh(rx) && fresh(tx) && fresh(rx.buf) && fresh(tx.buf) && fresh(rxPkt) && fresh(txPkt)
    {
      this.ok, configured, rxPaused, txBusy, txLast, dropped := ok, false, false, false, 0, 0;
      rx := new Ring(RX_ROOM + 1);
      tx := new Ring(TX_ROOM + 1);
      rxPkt := new u8[MPS];
      txPkt := new u8[MPS];
      c := Initial(ok);
    }

    /** tx_kick. On a packet, its bytes are in the packet buffer the endpoint was given. */
    method TxKick()
      requires Tied()
      modifies this, tx`r, txPkt
      ensures Tied() && c == Kick(old(c))
      ensures configured && !old(txBusy) && old(c.txq) != [] ==> txPkt[..txLast] == old(c.txq)[..txLast]
    {
      if !configured || txBusy { return; }
      var n := tx.Used();
      if n == 0 {
        if txLast == MPS {
          txLast, txBusy := 0, true;
          c := Kick(c);
        }
        return;
      }
      if n > MPS { n := MPS; }
      tx.Take(n, txPkt);
      txLast, txBusy := n, true;
      c := Kick(c);
    }

    method RxArm()
      requires Tied()
      modifies this
      ensures Tied() && c == Arm(old(c))
    {
      if rx.Free() >= MPS { rxPaused := false; } else { rxPaused := true; }
      c := Arm(c);
    }

    method OnDataIn()
      requires Tied() && Enabled(c, DataIn)
      modifies this, tx`r, txPkt
      ensures Tied() && c == Step(old(c), DataIn)
    {
      txBusy := false;
      c := c.(txBusy := false);
      TxKick();
    }

    /** The endpoint put `n` bytes into the packet buffer. */
    method OnDataOut(count: nat)
      requires Tied() && count <= MPS && Enabled(c, DataOut(rxPkt[..count])) && |c.rxq| + MPS <= RX_ROOM
      modifies this, rx`w, rx.buf
      ensures Tied() && c == Step(old(c), DataOut(old(rxPkt[..count])))
    {
      ghost var c0 := c;
      var i := 0;
      while i < count
        invariant 0 <= i <= count && Apart() && c == c0 && rxPkt[..] == old(rxPkt[..])
        invariant configured == c.configured && rxPaused == c.rxPaused && txBusy == c.txBusy && txLast == c.txLast && dropped == c.dropped
        invariant tx.Contents() == c.txq && rx.Contents() == c0.rxq + rxPkt[..i]
      {
        rx.Put(rxPkt[i]);
        assert rxPkt[..i + 1] == rxPkt[..i] + [rxPkt[i]];
        i := i + 1;
      }
      c := c.(rxq := c.rxq + rxPkt[..count], received := c.received + rxPkt[..count], rxArmed := false);
      RxArm();
    }

    method OnReset()
      requires Tied() && Enabled(c, Reset)
      modifies this
      ensures Tied() && c == Step(old(c), Reset)
    {
      configured, txBusy, rxPaused, txLast := false, false, false, 0;
      c := Step(c, Reset);
    }

    method OnSetConfiguration(value: u8)
      requires Tied() && Enabled(c, SetConfiguration(value))
      modifies this, tx`r, txPkt
      ensures Tied() && c == Step(old(c), SetConfiguration(value))
    {
      if value == 1 {
        configured, txBusy, txLast := true, false, 0;
        c := c.(configured := true, txBusy := false, txLast := 0, rxArmed := false, packets := []);
        RxArm();
        TxKick();
      } else if value == 0 {
        configured := false;
        c := Step(c, SetConfiguration(value));
      }
    }

    // ---- the main loop's side, between any two of which an interrupt may come ----------------

    method StartWrite(data: seq<u8>) returns (go: bool)
      requires Tied() && Enabled(c, WriteStart(data))
      modifies this`dropped, this`c
      ensures Tied() && c == Step(old(c), WriteStart(data)) && go == (ok && configured)
      ensures c.accepted == old(c).accepted && c.txq == old(c).txq
      ensures if go then c.write == Writing(data, 0) && c.dropped == old(c).dropped
              else c.write == NoWrite && c.dropped == Wrap32(old(c).dropped + |data|)
    {
      go := ok && configured;
      if !go { dropped := Wrap32(dropped + |data|); }
      c := Step(c, WriteStart(data));
    }

    /** The loop head of a write: is there another byte, and room for it? */
    method WriteOne(data: seq<u8>, n: nat) returns (more: bool)
      requires Tied() && c.write == Writing(data, n) && n <= |data| && |c.txq| <= TX_ROOM
      modifies this`c, tx`w, tx.buf
      ensures Tied() && more == (n < |data| && |old(c).txq| < TX_ROOM)
      ensures c == if more then Step(old(c), WriteByte) else old(c)
      ensures more ==> c.write == Writing(data, n + 1) && |c.txq| == |old(c).txq| + 1 && c.dropped == old(c).dropped
      ensures more ==> c.accepted == old(c).accepted + [data[n]]
    {
      more := n < |data| && tx.Free() > 0;
      if more {
        tx.Put(data[n]);
        c := Step(c, WriteByte);
      }
    }

    method StopWrite(data: seq<u8>, n: nat)
      requires Tied() && c.write == Writing(data, n) && Enabled(c, WriteStop)
      modifies this
      ensures Tied() && c == Step(old(c), WriteStop) && c.write == Kicking(n)
      ensures c.accepted == old(c).accepted && c.dropped == Wrap32(old(c).dropped + |data| - n)
    {
      if n < |data| { dropped := Wrap32(dropped + |data| - n); } else { WrapOfWrapped(dropped); }
      c := Step(c, WriteStop);
    }

    method FinishWrite(n: nat)
      requires Tied() && c.write == Kicking(n)
      modifies this, tx`r, txPkt
      ensures Tied() && c == Step(old(c), WriteKick)
      ensures c.write == NoWrite && c.accepted == old(c).accepted && c.dropped == old(c).dropped
    {
      if n > 0 { TxKick(); }
      c := c.(write := NoWrite);
    }

    /** usb_cdc_write with no interrupt in between: what the ring had room for. */
    method WriteAll(data: seq<u8>) returns (n: nat)
      requires Tied() && Enabled(c, WriteStart(data)) && |c.txq| <= TX_ROOM
      modifies this, tx, tx.buf, txPkt
      ensures Tied() && c.write.NoWrite?
      ensures n == if ok && old(configured) then Min(|data|, TX_ROOM - |old(c).txq|) else 0
      ensures c.accepted == old(c.accepted) + data[..n] && c.dropped == Wrap32(old(c.dropped) + |data| - n)
    {
      hide Step;
      n := 0;
      var go := StartWrite(data);
      if !go { return; }
      ghost var (q0, a0, d0) := (c.txq, c.accepted, c.dropped);
      var more := true;
      while more
        invariant Tied() && c.write == Writing(data, n) && n <= |data| && ok == c.ok && configured == old(configured)
        invariant |c.txq| == |q0| + n <= TX_ROOM && c.accepted == a0 + data[..n] && c.dropped == d0
        invariant !more ==> n == |data| || |c.txq| == TX_ROOM
        decreases |data| - n, more
      {
        more := WriteOne(data, n);
        if more {
          assert data[..n + 1] == data[..n] + [data[n]];
          n := n + 1;
        }
      }
      StopWrite(data, n);
      FinishWrite(n);
    }

    /** One byte of a read, copied but not yet freed; `at` is the reader's own index. */
    method ReadOne(cap: nat, out: array<u8>, n: nat, at: nat) returns (more: bool, next: nat)
      requires Tied() && n <= cap <= out.Length && c.read == Reading(cap, out[..n]) && n <= |c.rxq|
      requires at == Slot(rx.r, n, rx.size) && out != rx.buf && out != tx.buf
      modifies this`c, out
      ensures Tied() && more == (n < cap && n < |old(c).rxq|)
      ensures c == if more then Step(old(c), ReadByte) else old(c)
      ensures more ==> next == Slot(rx.r, n + 1, rx.size) && c.read == Reading(cap, out[..n + 1])
    {
      AtEnd(rx.w, rx.r, n, rx.size);
      more, next := n < cap && at != rx.w, at;
      if more {
        QueueAt(rx.buf[..], rx.r, rx.Used(), n);
        NextSlot(rx.r, n, rx.size);
        hide Slot, UsedSlots, Queue;
        out[n] := rx.buf[at];
        next := (at + 1) % rx.size;
        assert out[..n + 1] == old(out[..n]) + [old(c).rxq[n]];
        c := Step(c, ReadByte);
      }
    }

    /** s_rx_r = r: what was copied is freed. */
    method CommitRead(n: nat, at: nat)
      requires Tied() && c.read.Reading? && n == |c.read.got| <= |c.rxq| && c.read.got <= c.rxq && at == Slot(rx.r, n, rx.size)
      modifies this`c, rx`r
      ensures Tied() && c == Step(old(c), ReadCommit)
    {
      hide Slot, UsedSlots, Queue;
      QueueTake(rx.buf[..], rx.r, rx.Used(), n);
      rx.r := at;
      c := Step(c, ReadCommit);
    }

    /** If reception stalled on a full ring, the read may have made room. */
    method RearmAfterRead()
      requires Tied() && c.read.Rearming?
      modifies this
      ensures Tied() && c == Step(old(c), ReadRearm)
    {
      if rxPaused && ok { RxArm(); }
      c := c.(read := NoRead);
    }
  }

  lemma AtEnd(w: nat, r: nat, n: nat, size: nat)
    requires w < size && r < size && n <= UsedSlots(w, r, size)
    ensures Slot(r, n, size) == w <==> n == UsedSlots(w, r, size)
  {}

  lemma WrapOfWrapped(d: u32)
    ensures Wrap32(d) == d
  {}
}
