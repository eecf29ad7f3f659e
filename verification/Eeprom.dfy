/** The 24C16 part and its driver, Core/Src/eeprom24c16.c: a device that wraps inside
    16-byte pages on write and 256-byte blocks on read, behind a flat 2048-byte view. */
module Eeprom {
  import opened Words

  const SIZE: nat := 2048
  const BLOCK: nat := 256
  const PAGE: nat := 16
  const ATTEMPTS: nat := 3

  /** How the bus answers one transaction: acknowledged throughout; acknowledged by a
      part that silently keeps its old cells; or cut off after `taken` bytes. */
  datatype Answer = Ack | Lost | Nack(taken: nat)

  function Taken(a: Answer, len: nat): (n: nat) ensures n <= len 
  {
    match a case Ack => len case Lost => 0 case Nack(taken) => Min(taken, len)
  }

  // ---- the part ----------------------------------------------------------------------

  /** The 8-bit device address carries the block number. */
  function DevAddr(word: nat): nat { 0xA0 + (word / 256 % 8) * 2 }

  function BlockOf(dev: nat): (b: nat) ensures b < 8 { dev / 2 % 8 }

  /** Where byte `i` of a write transaction lands: the page buffer wraps. */
  function WriteCell(dev: nat, word: nat, i: nat): (a: nat)
    ensures a < SIZE
  {
    BlockOf(dev) * BLOCK + word % 256 / PAGE * PAGE + (word + i) % PAGE
  }

  /** Where byte `i` of a read transaction comes from: the address counter wraps. */
  function ReadCell(dev: nat, word: nat, i: nat): (a: nat)
    ensures a < SIZE
  {
    BlockOf(dev) * BLOCK + (word + i) % BLOCK
  }

  /** The memory after the first `n` bytes of `data` were programmed. */
  function Programmed(m: seq<u8>, dev: nat, word: nat, data: seq<u8>, n: nat): (r: seq<u8>)
    requires |m| == SIZE && n <= |data|
    ensures |r| == SIZE
  {
    if n == 0 then m else Programmed(m, dev, word, data, n - 1)[WriteCell(dev, word, n - 1) := data[n - 1]]
  }

  /** The flat view: `data` laid over the memory at `at`. */
  function Flat(m: seq<u8>, at: nat, data: seq<u8>): (r: seq<u8>)
    requires at + |data| <= |m|
    ensures |r| == |m|
  {
    m[..at] + data + m[at + |data|..]
  }

  lemma CellInPage(at: nat, i: nat)
    requires at < SIZE && at % PAGE + i < PAGE
    ensures WriteCell(DevAddr(at), at % 256, i) == at + i
  {
    BlockOfAddress(at);
    PageOffset(at);
    InOnePage(at % 256, i);
    hide BlockOf, DevAddr;
  }

  lemma BlockOfAddress(at: nat)
    requires at < SIZE
    ensures BlockOf(DevAddr(at)) == at / 256
  {}

  /** The seven-bit address on the bus is 1010 and the number of the block of 256 bytes. */
  lemma AddressOnBus(at: nat)
    requires at < SIZE
    ensures DevAddr(at) == 2 * (0x50 + at / 256) && 0x50 + at / 256 <= 0x57
  {}

  lemma PageOffset(at: nat)
    ensures at % 256 % PAGE == at % PAGE
  {}

  lemma InOnePage(r: nat, i: nat)
    requires r % PAGE + i < PAGE
    ensures (r + i) % PAGE == r % PAGE + i
  {}

  lemma BlockIsFlat(at: nat, len: nat)
    requires at < SIZE && at % BLOCK + len <= BLOCK
    ensures forall i :: 0 <= i < len ==> ReadCell(DevAddr(at), at % 256, i) == at + i
  {
    assert BlockOf(DevAddr(at)) == at / 256;
  }

  /** Inside one page the wrapping part behaves like flat memory. */
  lemma {:induction false} PageIsFlat(m: seq<u8>, at: nat, data: seq<u8>, n: nat)
    requires |m| == SIZE && at % PAGE + |data| <= PAGE && at + |data| <= SIZE && n <= |data|
    ensures Programmed(m, DevAddr(at), at % 256, data, n) == Flat(m, at, data[..n])
  {
    if n > 0 {
      PageIsFlat(m, at, data, n - 1);
      CellInPage(at, n - 1);
      assert data[..n] == data[..n - 1] + [data[n - 1]];
    }
  }

  /** One byte past the page end and the transaction lands on the page's first byte. */
  lemma PageOverrunWraps(at: nat, i: nat)
    requires at < SIZE && at % PAGE + i == PAGE
    ensures WriteCell(DevAddr(at), at % 256, i) == at - at % PAGE
  {
    assert BlockOf(DevAddr(at)) == at / 256;
    assert at % 256 % PAGE == at % PAGE;
  }

  lemma FlatExtends(m: seq<u8>, at: nat, a: seq<u8>, b: seq<u8>)
    requires at + |a| + |b| <= |m|
    ensures Flat(Flat(m, at, a), at + |a|, b) == Flat(m, at, a + b)
  {}

  lemma FlatNext(m: seq<u8>, at: nat, data: seq<u8>, done: nat, chunk: nat, n: nat)
    requires at + |data| <= |m| && done + chunk <= |data| && n <= chunk
    ensures Flat(Flat(m, at, data[..done]), at + done, data[done..done + chunk][..n]) == Flat(m, at, data[..done + n])
  {
    FlatExtends(m, at, data[..done], data[done..done + chunk][..n]);
    assert data[..done + n] == data[..done] + data[done..done + chunk][..n];
  }

  /** A retry that gets further covers what the earlier one left. */
  lemma FlatCovers(m: seq<u8>, at: nat, data: seq<u8>, n: nat, k: nat)
    requires at + |data| <= |m| && n <= |data| && k <= |data|
    ensures Flat(Flat(m, at, data[..n]), at, data[..k]) == Flat(m, at, data[..if n < k then k else n])
  {}

  /** `m` is `was` with some bytes of `data` laid over it at `at`. */
  ghost predicate Blend(was: seq<u8>, m: seq<u8>, at: nat, data: seq<u8>)
  {
    && |m| == |was| && at + |data| <= |m|
    && (forall i :: 0 <= i < |m| && !(at <= i < at + |data|) ==> m[i] == was[i])
    && (forall i :: at <= i < at + |data| ==> m[i] == was[i] || m[i] == data[i - at])
  }

  lemma FlatBlends(was: seq<u8>, m: seq<u8>, at: nat, data: seq<u8>, done: nat, part: seq<u8>)
    requires Blend(was, m, at, data) && done + |part| <= |data| && part == data[done..done + |part|]
    ensures Blend(was, Flat(m, at + done, part), at, data)
  {}

  // ---- the driver --------------------------------------------------------------------

  /** As much of what is left as fits before the next boundary. */
  lemma Glued(m: seq<u8>, at: nat, n: nat, k: nat)
    requires at + n + k <= |m|
    ensures m[at..at + n] + m[at + n..at + n + k] == m[at..at + n + k]
  {}

  function ChunkLen(at: nat, left: nat, size: nat): (n: nat)
    requires 0 < left && 0 < size
    ensures 0 < n <= left && at % size + n <= size
  {
    Min(size - at % size, left)
  }

  class Driver {
    const mem: array<u8>          // the part's cells
    const bus: nat -> Answer        // how the bus will answer transaction n
    var xact: nat                   // transactions so far
    var protect: bool               // /WP: true = protected
    var failTotal: bv32
    var failConsec: bv32

    ghost predicate Valid()
      reads this
    {
      mem.Length == SIZE
    }

    constructor (mem: array<u8>, bus: nat -> Answer)
      requires mem.Length == SIZE
      ensures Valid() && this.mem == mem && this.bus == bus && protect
    {
      this.mem, this.bus, xact, protect := mem, bus, 0, true;
      failTotal, failConsec := 0, 0;
    }

    /** One write transaction as the part performs it. */
    method MemWrite(dev: nat, word: nat, data: seq<u8>) returns (ok: bool)
      requires Valid()
      modifies mem, this`xact
      ensures xact == old(xact) + 1 && ok == !bus(old(xact)).Nack?
      ensures mem[..] == if protect then old(mem[..])
                         else Programmed(old(mem[..]), dev, word, data, Taken(bus(old(xact)), |data|))
    {
      var answer := bus(xact);
      var n := Taken(answer, |data|);
      xact := xact + 1;
      ok := !answer.Nack?;
      if protect { return; }
      var i := 0;
      while i < n
        invariant 0 <= i <= n
        invariant xact == old(xact) + 1
        invariant mem[..] == Programmed(old(mem[..]), dev, word, data, i)
      {
        mem[WriteCell(dev, word, i)] := data[i];
        i := i + 1;
      }
    }

    /** One read transaction into buf[from .. from + len]. */
    method MemRead(dev: nat, word: nat, buf: array<u8>, from: nat, len: nat) returns (ok: bool)
      requires Valid() && buf != mem && from + len <= buf.Length
      modifies buf, this`xact
      ensures xact == old(xact) + 1 && ok == !bus(old(xact)).Nack?
      ensures forall k :: 0 <= k < buf.Length && !(from <= k < from + len) ==> buf[k] == old(buf[k])
      ensures ok ==> forall i :: 0 <= i < len ==> buf[from + i] == mem[ReadCell(dev, word, i)]
    {
      var answer := bus(xact);
      var n := if answer.Nack? then Min(answer.taken, len) else len;
      xact := xact + 1;
      ok := !answer.Nack?;
      var i := 0;
      while i < n
        invariant 0 <= i <= n && xact == old(xact) + 1
        invariant forall k :: 0 <= k < buf.Length && !(from <= k < from + len) ==> buf[k] == old(buf[k])
        invariant forall j :: 0 <= j < i ==> buf[from + j] == mem[ReadCell(dev, word, j)]
      {
        buf[from + i] := mem[ReadCell(dev, word, i)];
        i := i + 1;
      }
    }

    /** No write since transaction `since` was acknowledged and lost. */
    ghost predicate Honest(since: nat)
      reads this
    {
      forall k :: since <= k < xact ==> !bus(k).Lost?
    }

    method WritePage(at: nat, data: seq<u8>) returns (ok: bool)
      requires Valid() && at % PAGE + |data| <= PAGE && at + |data| <= SIZE && !protect
      modifies mem, this`xact, this`failTotal, this`failConsec
      ensures exists n :: 0 <= n <= |data| && mem[..] == Flat(old(mem[..]), at, data[..n])
      ensures ok && Honest(old(xact)) ==> mem[..] == Flat(old(mem[..]), at, data)
      ensures ok ==> failConsec == 0
      ensures (forall k :: old(xact) <= k ==> bus(k).Ack?) ==> ok
      ensures old(xact) <= xact <= old(xact) + 3
      ensures !ok ==> xact == old(xact) + 3 && forall k :: old(xact) <= k < xact ==> bus(k).Nack?
    {
      var attempt := 0;
      ghost var n := 0;
      assert mem[..] == Flat(old(mem[..]), at, data[..0]);
      hide Flat, Programmed, Taken;
      while attempt < ATTEMPTS
        invariant 0 <= attempt <= ATTEMPTS && xact == old(xact) + attempt
        invariant 0 <= n <= |data| && mem[..] == Flat(old(mem[..]), at, data[..n])
        invariant forall k :: old(xact) <= k < xact ==> bus(k).Nack?
      {
        ghost var before := mem[..];
        ghost var k := Taken(bus(xact), |data|);
        PageIsFlat(before, at, data, k);
        FlatCovers(old(mem[..]), at, data, n, k);
        ok := MemWrite(DevAddr(at), at % 256, data);
        n := if n < k then k else n;
        if ok {
          assert data[..|data|] == data;
          failConsec := 0;
          return;
        }
        failTotal := failTotal + 1;
        failConsec := failConsec + 1;
        attempt := attempt + 1;
      }
      assert bus(old(xact)).Nack?;
      ok := false;
    }

    /** The next chunk of a longer write whose first `done` bytes were sent. */
    method WriteNext(at: nat, data: seq<u8>, done: nat, chunk: nat, ghost was: seq<u8>, ghost since: nat)
      returns (ok: bool)
      requires Valid() && |was| == SIZE && at + |data| <= SIZE && done + chunk <= |data| && !protect
      requires (at + done) % PAGE + chunk <= PAGE && since <= xact
      requires Blend(was, mem[..], at, data) && (Honest(since) ==> mem[..] == Flat(was, at, data[..done]))
      modifies mem, this`xact, this`failTotal, this`failConsec
      ensures Blend(was, mem[..], at, data)
      ensures ok && Honest(since) ==> mem[..] == Flat(was, at, data[..done + chunk])
      ensures !ok && Honest(since) ==> exists n :: done <= n <= done + chunk && mem[..] == Flat(was, at, data[..n])
      ensures (forall k :: old(xact) <= k ==> bus(k).Ack?) ==> ok
      ensures old(xact) <= xact
    {
      hide Blend, Flat;
      var part := data[done..done + chunk];
      ok := WritePage(at + done, part);
      ghost var n :| 0 <= n <= chunk && mem[..] == Flat(old(mem[..]), at + done, part[..n]);
      FlatBlends(was, old(mem[..]), at, data, done, part[..n]);
      if Honest(since) {
        assert part[..chunk] == part;
        FlatNext(was, at, data, done, chunk, n);
        FlatNext(was, at, data, done, chunk, chunk);
      }
    }

    /** eeprom24c16_write: nothing outside the range changes and the part is protected
        again, whatever happened. Unless the part loses what it acknowledges, success
        means all of the range and failure a prefix of it. */
    method Write(at: nat, data: seq<u8>) returns (ok: bool)
      requires Valid()
      modifies mem, this`xact, this`failTotal, this`failConsec, this`protect
      ensures at + |data| > SIZE ==> !ok && mem[..] == old(mem[..]) && protect == old(protect)
      ensures at + |data| <= SIZE ==> protect && Blend(old(mem[..]), mem[..], at, data)
      ensures ok && Honest(old(xact)) ==> mem[..] == Flat(old(mem[..]), at, data)
      ensures !ok && at + |data| <= SIZE && Honest(old(xact)) ==>
                exists n :: 0 <= n <= |data| && mem[..] == Flat(old(mem[..]), at, data[..n])
      ensures at + |data| <= SIZE && (forall k :: old(xact) <= k ==> bus(k).Ack?) ==> ok
      ensures old(xact) <= xact
    {
      hide ChunkLen;
      if at + |data| > SIZE { return false; }
      protect := false;
      ok := true;
      var done := 0;
      while done < |data|
        invariant 0 <= done <= |data| && !protect && ok && old(xact) <= xact
        invariant Blend(old(mem[..]), mem[..], at, data)
        invariant Honest(old(xact)) ==> mem[..] == Flat(old(mem[..]), at, data[..done])
      {
        var chunk := ChunkLen(at + done, |data| - done, PAGE);
        ok := WriteNext(at, data, done, chunk, old(mem[..]), old(xact));
        if !ok { break; }
        done := done + chunk;
      }
      assert data[..|data|] == data;
      protect := true;
    }

    method ReadChunk(at: nat, buf: array<u8>, from: nat, len: nat) returns (ok: bool)
      requires Valid() && buf != mem && from + len <= buf.Length
      requires at % BLOCK + len <= BLOCK && at + len <= SIZE
      modifies buf, this`xact, this`failTotal, this`failConsec
      ensures forall k :: 0 <= k < buf.Length && !(from <= k < from + len) ==> buf[k] == old(buf[k])
      ensures ok ==> buf[from..from + len] == mem[at..at + len] && failConsec == 0
      ensures (forall k :: old(xact) <= k ==> bus(k).Ack?) ==> ok
      ensures old(xact) <= xact
    {
      var attempt := 0;
      while attempt < ATTEMPTS
        invariant 0 <= attempt <= ATTEMPTS && xact == old(xact) + attempt
        invariant forall k :: 0 <= k < buf.Length && !(from <= k < from + len) ==> buf[k] == old(buf[k])
        invariant forall k :: old(xact) <= k < xact ==> bus(k).Nack?
      {
        ok := MemRead(DevAddr(at), at % 256, buf, from, len);
        if ok {
          if len > 0 { BlockIsFlat(at, len); }
          ghost var (got, cells) := (buf[from..from + len], mem[at..at + len]);
          assert forall i :: 0 <= i < len ==> got[i] == mem[ReadCell(DevAddr(at), at % 256, i)] == cells[i];
          failConsec := 0;
          return;
        }
        failTotal := failTotal + 1;
        failConsec := failConsec + 1;
        attempt := attempt + 1;
      }
      assert bus(old(xact)).Nack?;
      ok := false;
    }

    /** eeprom24c16_read into the front of `buf`. */
    method Read(at: nat, buf: array<u8>, len: nat) returns (ok: bool)
      requires Valid() && buf != mem && len <= buf.Length
      modifies buf, this`xact, this`failTotal, this`failConsec
      ensures at + len > SIZE ==> !ok && buf[..] == old(buf[..])
      ensures ok ==> at + len <= SIZE && buf[..] == mem[at..at + len] + old(buf[..])[len..]
      ensures !ok ==> buf[len..] == old(buf[..])[len..]
      ensures at + len <= SIZE && (forall k :: old(xact) <= k ==> bus(k).Ack?) ==> ok
      ensures old(xact) <= xact
    {
      hide ChunkLen;
      if at + len > SIZE { return false; }
      var done := 0;
      while done < len
        invariant 0 <= done <= len && old(xact) <= xact
        invariant buf[..done] == mem[at..at + done]
        invariant buf[len..] == old(buf[..])[len..]
      {
        var chunk := ChunkLen(at + done, len - done, BLOCK);
        ghost var before := buf[..];
        ok := ReadChunk(at + done, buf, done, chunk);
        assert buf[..done] == before[..done] && buf[len..] == before[len..];
        if !ok { return false; }
        assert buf[..done + chunk] == buf[..done] + buf[done..done + chunk];
        Glued(mem[..], at, done, chunk);
        done := done + chunk;
      }
      ok := true;
    }
  }
}
