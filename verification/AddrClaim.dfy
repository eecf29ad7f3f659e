/** CAN identifiers, the pieces of control/Src/n2k_encode.c the claim machine uses. */
module CanIds {
  import opened Words

  const PGN_ADDR_CLAIM: nat := 60928
  const PGN_ISO_REQUEST: nat := 59904
  const ADDR_NULL: u8 := 254
  const ADDR_GLOBAL: u8 := 255

  datatype Frame = Frame(id: u32, data: seq<u8>)

  predicate IsPdu1(pgn: nat) { (pgn / 256) % 256 < 240 }

  /** Priority, PGN, source and (for PDU1 formats) destination packed in 29 bits. */
  function CanId(priority: u8, pgn: nat, src: u8, dest: u8): (id: u32)
  {
    var p := pgn % 0x20000;
    var idPgn := if IsPdu1(p) then p / 256 * 256 + dest else p;
    (priority % 8) * 0x400_0000 + idPgn * 256 + src
  }

  function IdPgn(id: u32): (pgn: nat)
  {
    var p := (id / 256) % 0x20000;
    if IsPdu1(p) then p / 256 * 256 else p
  }

  function IdSrc(id: u32): u8 { id % 256 }

  /** The PS byte: the destination of a PDU1 frame. */
  function IdPs(id: u32): u8 { (id / 256) % 256 }

  lemma CanIdFields(priority: u8, pgn: nat, src: u8, dest: u8)
    requires pgn < 0x20000
    ensures IdSrc(CanId(priority, pgn, src, dest)) == src
    ensures IsPdu1(pgn) ==> IdPs(CanId(priority, pgn, src, dest)) == dest
    ensures IdPgn(CanId(priority, pgn, src, dest)) == if IsPdu1(pgn) then pgn / 256 * 256 else pgn
  {
    var q := (priority % 8) * 2;
    if IsPdu1(pgn) {
      Fields(q, pgn / 256 * 256 + dest, src);
      PsBits(q, pgn / 256, dest);
    } else {
      Fields(q, pgn, src);
    }
  }

  /** The identifier as the hardware splits it: source, PGN field, priority. */
  lemma Fields(q: nat, field: nat, src: u8)
    requires field < 0x20000
    ensures var id := (q * 0x20000 + field) * 256 + src;
            id % 256 == src && id / 256 == q * 0x20000 + field && (id / 256) % 0x20000 == field
  {
    LowByte(q * 0x20000 + field, src);
    Remainder(q, field);
  }

  lemma LowByte(high: nat, low: u8)
    ensures (high * 256 + low) % 256 == low && (high * 256 + low) / 256 == high
  {}

  lemma PsBits(q: nat, page: nat, dest: u8)
    ensures (page * 256 + dest) / 256 == page
    ensures (q * 0x20000 + page * 256 + dest) % 256 == dest
  {
    LowByte(page, dest);
    LowByte(q * 512 + page, dest);
  }

  lemma Remainder(q: nat, r: nat)
    requires r < 0x20000
    ensures (q * 0x20000 + r) % 0x20000 == r
  {
  }
}

/** One node's ISO address-claim machine, control/Src/n2k_addrclaim.c. */
module AddrClaim {
  import opened Words
  import opened CanIds

  const SETTLE_MS: nat := 250
  const AC_PRIO: u8 := 6
  const ADDRESSES: nat := 254

  datatype ClaimState = Claiming | Claimed | Null

  /** The value of one claim context (n2k_ac_t). */
  datatype Node = Node(
    name: u64, pref: u8, addr: u8, tries: nat, state: ClaimState,
    claimMs: u32, needClaim: bool, needRepeat: bool)

  function ClaimFrame(name: u64, addr: u8): Frame
  {
    Frame(CanId(AC_PRIO, PGN_ADDR_CLAIM, addr, 255), LeBytes(name, 8))
  }

  function Initial(name: u64, pref: u8): Node
  {
    Node(name, pref, pref, 0, Claiming, 0, true, false)
  }

  /** The machine after it lost its current address. */
  function Displaced(n: Node): Node
  {
    if n.tries + 1 >= ADDRESSES then
      n.(tries := n.tries + 1, state := Null, addr := ADDR_NULL, needClaim := false, needRepeat := false)
    else
      n.(tries := n.tries + 1, addr := (n.pref + n.tries + 1) % ADDRESSES, state := Claiming, needClaim := true)
  }

  predicate SendsClaim(n: Node, max: nat) { n.state != Null && n.needClaim && 0 < max }

  predicate SendsRepeat(n: Node, max: nat)
  {
    n.state != Null && n.needRepeat && (if SendsClaim(n, max) then 1 else 0) < max
  }

  function TickFrames(n: Node, max: nat): (out: seq<Frame>)
    ensures |out| <= max && |out| <= 2
  {
    (if SendsClaim(n, max) then [ClaimFrame(n.name, n.addr)] else []) +
    (if SendsRepeat(n, max) then [ClaimFrame(n.name, n.addr)] else [])
  }

  function Ticked(n: Node, now: u32, max: nat): Node
  {
    if n.state == Null then n else
      var c := if SendsClaim(n, max) then n.(claimMs := now, needClaim := false) else n;
      var r := if SendsRepeat(n, max) then c.(needRepeat := false) else c;
      if r.state == Claiming && !r.needClaim && Sub32(now, r.claimMs) >= SETTLE_MS
      then r.(state := Claimed) else r
  }

  function Received(n: Node, f: Frame): Node
  {
    if n.state == Null then n
    else if IdPgn(f.id) == PGN_ADDR_CLAIM then
      if |f.data| < 8 || IdSrc(f.id) != n.addr then n
      else if LeValue(f.data[..8]) < n.name then Displaced(n)
      else n.(needRepeat := true)
    else if IdPgn(f.id) == PGN_ISO_REQUEST then
      if |f.data| < 3 then n
      else if IdPs(f.id) != ADDR_GLOBAL && IdPs(f.id) != n.addr then n
      else if LeValue(f.data[..3]) != PGN_ADDR_CLAIM then n
      else if n.state == Claimed then n.(needRepeat := true) else n
    else n
  }

  /** The claim context the firmware updates in place. */
  class Context {
    var name: u64
    var prefAddr: u8
    var addr: u8
    var tries: nat
    var state: ClaimState
    var claimMs: u32
    var needClaimTx: bool
    var needRepeatTx: bool

    ghost function View(): Node
      reads this
    {
      Node(name, prefAddr, addr, tries, state, claimMs, needClaimTx, needRepeatTx)
    }

    constructor (name: u64, preferred: u8)
      ensures View() == Initial(name, preferred)
    {
      this.name, prefAddr, addr, tries := name, preferred, preferred, 0;
      state, claimMs, needClaimTx, needRepeatTx := Claiming, 0, true, false;
    }

    method RestartClaim()
      modifies this
      ensures View() == Displaced(old(View()))
    {
      tries := tries + 1;
      if tries >= ADDRESSES {
        state := Null;
        addr := ADDR_NULL;
        needClaimTx := false;
        needRepeatTx := false;
        return;
      }
      addr := (prefAddr + tries) % ADDRESSES;
      state := Claiming;
      needClaimTx := true;
    }

    /** Writes the frames of this cycle to the front of `out`. */
    method Tick(now: u32, out: array<Frame>) returns (count: nat)
      modifies this, out
      ensures View() == Ticked(old(View()), now, out.Length)
      ensures count == |TickFrames(old(View()), out.Length)|
      ensures out[..] == TickFrames(old(View()), out.Length) + old(out[..])[count..]
    {
      count := 0;
      if state == Null { return; }
      if needClaimTx && count < out.Length {
        out[count] := ClaimFrame(name, addr);
        count := count + 1;
        claimMs := now;
        needClaimTx := false;
      }
      if needRepeatTx && count < out.Length {
        out[count] := ClaimFrame(name, addr);
        count := count + 1;
        needRepeatTx := false;
      }
      if state == Claiming && !needClaimTx && Sub32(now, claimMs) >= SETTLE_MS {
        state := Claimed;
      }
    }

    method Rx(id: u32, data: seq<u8>)
      modifies this
      ensures View() == Received(old(View()), Frame(id, data))
    {
      if state == Null { return; }
      var pgn := IdPgn(id);
      if pgn == PGN_ADDR_CLAIM {
        if |data| < 8 { return; }
        var from := IdSrc(id);
        if from != addr { return; }
        if LeValue(data[..8]) < name {
          RestartClaim();
        } else {
          needRepeatTx := true;
        }
        return;
      }
      if pgn == PGN_ISO_REQUEST {
        if |data| < 3 { return; }
        var dest := IdPs(id);
        if dest != ADDR_GLOBAL && dest != addr { return; }
        if LeValue(data[..3]) != PGN_ADDR_CLAIM { return; }
        if state == Claimed { needRepeatTx := true; }
      }
    }

    /** n2k_ac_ready: the only state in which anything else may be sent. */
    method Ready() returns (r: bool)
      ensures r <==> View().state == Claimed
    {
      r := state == Claimed;
    }
  }

  /** What a node does with another node's claim: yield to a lower NAME on its own
      address, owe a rebuttal to a higher one, ignore every other address. */
  lemma ReceivedClaim(n: Node, name: u64, addr: u8)
    requires n.state != Null
    ensures Received(n, ClaimFrame(name, addr)) ==
            if addr != n.addr then n
            else if name < n.name then Displaced(n) else n.(needRepeat := true)
  {
    CanIdFields(AC_PRIO, PGN_ADDR_CLAIM, addr, 255);
    assert Pow256(8) == POW64;
    LeRoundTrip(name, 8);
    assert LeBytes(name, 8)[..8] == LeBytes(name, 8);
  }

  // ---- requests, read off the identifier's bytes -------------------------------------------

  /** The page bit and the format byte of an identifier. */
  function PageAndFormat(id: u32): nat { id / 0x1_0000 % 0x200 }

  /** What a frame must be to ask a node for its claim: the group 60928, least significant byte
      first, asked of everybody or of the address the node has won. */
  predicate AsksFor(n: Node, f: Frame)
  {
    && n.state == Claimed && PageAndFormat(f.id) == 0xEA && |f.data| >= 3 && f.data[..3] == [0x00, 0xEE, 0x00]
    && (f.id / 0x100 % 0x100 == 255 || f.id / 0x100 % 0x100 == n.addr)
  }

  lemma GroupOfFormat(id: u32)
    ensures IdPgn(id) == PGN_ADDR_CLAIM <==> PageAndFormat(id) == 0xEE
    ensures IdPgn(id) == PGN_ISO_REQUEST <==> PageAndFormat(id) == 0xEA
  {
    var p := (id / 256) % 0x20000;
    assert id / 256 / 256 == id / 0x1_0000;
    assert p / 256 == PageAndFormat(id) by {
      assert id / 256 == id / 256 / 0x20000 * 0x20000 + p;
      assert id / 256 / 256 == id / 256 / 0x20000 * 0x200 + p / 256;
    }
  }

  lemma ThreeBytes(data: seq<u8>)
    requires |data| == 3
    ensures LeValue(data) == PGN_ADDR_CLAIM <==> data == [0x00, 0xEE, 0x00]
  {
    var (a: int, b: int, c: int) := (data[0], data[1], data[2]);
    assert data[1..][1..] == data[2..] && data[2..][1..] == [];
    assert LeValue(data[2..]) == c;
    assert LeValue(data[1..]) == b + 256 * c;
    assert LeValue(data) == a + 256 * (b + 256 * c);
    assert data == [data[0], data[1], data[2]];
  }

  /** A request makes a node that has won its address announce it in its next cycle with room,
      and it owes nothing else for it; every other request leaves the node as it was. */
  lemma RequestIsAnswered(n: Node, f: Frame, room: nat)
    requires PageAndFormat(f.id) == 0xEA && (n.state == Claimed ==> !n.needClaim)
    ensures !AsksFor(n, f) ==> Received(n, f) == n
    ensures AsksFor(n, f) ==> Received(n, f).(needRepeat := n.needRepeat) == n
    ensures n.state == Claimed && !n.needRepeat ==>
              TickFrames(Received(n, f), room) == if AsksFor(n, f) && room > 0 then [ClaimFrame(n.name, n.addr)] else []
    ensures AsksFor(n, f) && room > 0 ==> TickFrames(Received(n, f), room) == [ClaimFrame(n.name, n.addr)]
  {
    GroupOfFormat(f.id);
    if |f.data| >= 3 { ThreeBytes(f.data[..3]); }
  }

  /** Beside requests a node reacts to whole claims from its own address only. */
  lemma OthersAreIgnored(n: Node, f: Frame)
    requires PageAndFormat(f.id) != 0xEA
    requires PageAndFormat(f.id) != 0xEE || |f.data| < 8 || f.id % 0x100 != n.addr || n.state == Null
    ensures Received(n, f) == n
  {
    GroupOfFormat(f.id);
  }

  /** The claim on the wire: priority 6, group 60928, to everybody, from the address claimed,
      with the NAME least significant byte first. */
  lemma ClaimOnTheWire(name: u64, addr: u8)
    ensures ClaimFrame(name, addr).id == 0x18EE_FF00 + addr
    ensures |ClaimFrame(name, addr).data| == 8
    ensures forall k :: 0 <= k < 8 ==> ClaimFrame(name, addr).data[k] == name / Pow256(k) % 256
  {
    forall k | 0 <= k < 8 ensures LeBytes(name, 8)[k] == name / Pow256(k) % 256 { ByteOf(name, 8, k); }
  }

  /** A node that loses its address claims the next one at once, with room for it; what it
      owed before it still owes. With no address left it says nothing more. */
  lemma DisplacedLaw(n: Node, room: nat)
    requires n.tries < 254 && n.state != Null
    ensures var m := Displaced(n);
            if n.tries == 253 then m.state == Null && m.addr == 254 && TickFrames(m, room) == []
            else
              var f := ClaimFrame(m.name, m.addr);
              && m.state == Claiming && m.addr == (n.pref + n.tries + 1) % 254 && m.name == n.name && m.pref == n.pref
              && TickFrames(m, room) == if room == 0 then [] else if n.needRepeat && room > 1 then [f, f] else [f]
  {
    hide ClaimFrame;
  }

  /** From the cycle that sends the claim it is 250 ms, on a clock of 32 bits, until the address is
      won, however often the node ticks in between. */
  lemma SettleLaw(n: Node, now: u32, room: nat, d: nat, later: nat)
    requires n.state == Claiming && n.needClaim && room > 0
    ensures var m := Ticked(n, now, room);
            && m.state == Claiming && !m.needClaim && m.addr == n.addr
            && Ticked(m, Wrap32(now + d), later).state == if d % 0x1_0000_0000 >= 250 then Claimed else Claiming
  {
    SubOfWraps(now + d, now);
  }
}
