/** One RV-C node: the DC-source election and the transmit cadence of
    control/Src/rvc_sched.c. */
module RvcSched {
  import opened Words
  import opened CanIds

  const DGN_DC1: nat := 0x1FFFD
  const DGN_DC2: nat := 0x1FFFC
  const DGN_CHARGER: nat := 0x1FFC7
  const DGN_CHARGER2: nat := 0x1FEA3
  const PRI_STATUS: u8 := 6
  const INSTANCE: u8 := 1
  const CHARGER_MS: nat := 5000
  const STATUS_MS: nat := 500
  const TIMEOUT_MS: nat := 1500

  /** The election state (rvc_rbm_t). */
  datatype Rbm = Rbm(ours: u8, seen: bool, best: u8, last: u32)

  /** The scheduler state (rvc_sched_t). */
  datatype Sched = Sched(charger: u32, charger2: u32, dc1: u32, dc2: u32, rbm: Rbm)

  /** The measured part of each payload, as the encoders scale it. */
  datatype Readings = Readings(charger: seq<u8>, charger2: seq<u8>, dc1: seq<u8>, dc2: seq<u8>)

  function Initial(ours: u8): Sched { Sched(0, 0, 0, 0, Rbm(ours, false, 0, 0)) }

  predicate Defer(r: Rbm, now: u32) { r.seen && Sub32(now, r.last) < TIMEOUT_MS }

  function Heard(r: Rbm, now: u32, f: Frame): Rbm
  {
    if |f.data| < 2 || (IdPgn(f.id) != DGN_DC1 && IdPgn(f.id) != DGN_DC2) || f.data[1] <= r.ours then r
    else r.(seen := true, best := f.data[1], last := now)
  }

  function ChargerFrame(src: u8, v: Readings): Frame
  {
    Frame(CanId(PRI_STATUS, DGN_CHARGER, src, 255), [INSTANCE] + v.charger)
  }

  function Charger2Frame(ours: u8, src: u8, v: Readings): Frame
  {
    Frame(CanId(PRI_STATUS, DGN_CHARGER2, src, 255), [INSTANCE, INSTANCE, ours] + v.charger2)
  }

  function Dc1Frame(ours: u8, src: u8, v: Readings): Frame
  {
    Frame(CanId(PRI_STATUS, DGN_DC1, src, 255), [INSTANCE, ours] + v.dc1)
  }

  function Dc2Frame(ours: u8, src: u8, v: Readings): Frame
  {
    Frame(CanId(PRI_STATUS, DGN_DC2, src, 255), [INSTANCE, ours] + v.dc2)
  }

  // ---- one cycle, message by message ---------------------------------------------------------

  predicate SendsCharger(s: Sched, now: u32, ready: bool, room: nat) { ready && Due(now, s.charger) && 0 < room }

  function Used1(s: Sched, now: u32, ready: bool, room: nat): nat { if SendsCharger(s, now, ready, room) then 1 else 0 }

  predicate SendsCharger2(s: Sched, now: u32, ready: bool, room: nat)
  {
    ready && Due(now, s.charger2) && Used1(s, now, ready, room) < room
  }

  function Used2(s: Sched, now: u32, ready: bool, room: nat): nat
  {
    Used1(s, now, ready, room) + if SendsCharger2(s, now, ready, room) then 1 else 0
  }

  predicate SendsDc1(s: Sched, now: u32, ready: bool, room: nat)
  {
    ready && !Defer(s.rbm, now) && Due(now, s.dc1) && Used2(s, now, ready, room) < room
  }

  function Used3(s: Sched, now: u32, ready: bool, room: nat): nat
  {
    Used2(s, now, ready, room) + if SendsDc1(s, now, ready, room) then 1 else 0
  }

  predicate SendsDc2(s: Sched, now: u32, ready: bool, room: nat)
  {
    ready && !Defer(s.rbm, now) && Due(now, s.dc2) && Used3(s, now, ready, room) < room
  }

  /** The frames that identify the charger: never held back. */
  function OwnFrames(s: Sched, now: u32, ready: bool, room: nat, src: u8, v: Readings): (out: seq<Frame>)
    ensures |out| == Used2(s, now, ready, room) <= room
  {
    (if SendsCharger(s, now, ready, room) then [ChargerFrame(src, v)] else []) +
    (if SendsCharger2(s, now, ready, room) then [Charger2Frame(s.rbm.ours, src, v)] else [])
  }

  /** The frames that speak for the DC source: the elected master's alone. */
  function DcFrames(s: Sched, now: u32, ready: bool, room: nat, src: u8, v: Readings): (out: seq<Frame>)
    ensures Used2(s, now, ready, room) + |out| <= room
  {
    (if SendsDc1(s, now, ready, room) then [Dc1Frame(s.rbm.ours, src, v)] else []) +
    (if SendsDc2(s, now, ready, room) then [Dc2Frame(s.rbm.ours, src, v)] else [])
  }

  function TickFrames(s: Sched, now: u32, ready: bool, room: nat, src: u8, v: Readings): (out: seq<Frame>)
    ensures |out| <= room
  {
    OwnFrames(s, now, ready, room, src, v) + DcFrames(s, now, ready, room, src, v)
  }

  function Ticked(s: Sched, now: u32, ready: bool, room: nat): Sched
  {
    if !ready then s else
      var held := Defer(s.rbm, now);
      s.(charger := if SendsCharger(s, now, ready, room) then Wrap32(now + CHARGER_MS) else s.charger,
         charger2 := if SendsCharger2(s, now, ready, room) then Wrap32(now + STATUS_MS) else s.charger2,
         dc1 := if held then now else if SendsDc1(s, now, ready, room) then Wrap32(now + STATUS_MS) else s.dc1,
         dc2 := if held then now else if SendsDc2(s, now, ready, room) then Wrap32(now + STATUS_MS) else s.dc2)
  }

  /** The context the firmware updates in place. */
  class Scheduler {
    var nextCharger: u32
    var nextCharger2: u32
    var nextDc1: u32
    var nextDc2: u32
    var ours: u8
    var masterSeen: bool
    var masterPriority: u8
    var masterLast: u32

    ghost function View(): Sched
      reads this
    {
      Sched(nextCharger, nextCharger2, nextDc1, nextDc2, Rbm(ours, masterSeen, masterPriority, masterLast))
    }

    constructor (ourPriority: u8)
      ensures View() == Initial(ourPriority)
    {
      nextCharger, nextCharger2, nextDc1, nextDc2 := 0, 0, 0, 0;
      ours, masterSeen, masterPriority, masterLast := ourPriority, false, 0, 0;
    }

    method Rx(now: u32, id: u32, data: seq<u8>)
      modifies this
      ensures View() == old(View()).(rbm := Heard(old(View()).rbm, now, Frame(id, data)))
    {
      if |data| < 2 { return; }
      var pgn := IdPgn(id);
      if pgn != DGN_DC1 && pgn != DGN_DC2 { return; }
      var priority := data[1];
      if priority <= ours { return; }
      masterSeen, masterPriority, masterLast := true, priority, now;
    }

    method Emit(f: Frame, out: array<Frame>, at: nat) returns (count: nat)
      requires at < out.Length
      modifies out
      ensures count == at + 1 && out[..count] == old(out[..at]) + [f] && out[count..] == old(out[count..])
    {
      out[at] := f;
      count := at + 1;
    }

    method TickOwn(now: u32, src: u8, v: Readings, out: array<Frame>) returns (count: nat)
      modifies this`nextCharger, this`nextCharger2, out
      ensures count == Used2(old(View()), now, true, out.Length) <= out.Length
      ensures out[..count] == OwnFrames(old(View()), now, true, out.Length, src, v) && out[count..] == old(out[..])[count..]
      ensures var (s, t) := (old(View()), Ticked(old(View()), now, true, out.Length));
              nextCharger == t.charger && nextCharger2 == t.charger2
    {
      hide Due, ChargerFrame, Charger2Frame, Defer;
      count := 0;
      if Due(now, nextCharger) && count < out.Length {
        count := Emit(ChargerFrame(src, v), out, count);
        nextCharger := Wrap32(now + CHARGER_MS);
      }
      if Due(now, nextCharger2) && count < out.Length {
        count := Emit(Charger2Frame(ours, src, v), out, count);
        nextCharger2 := Wrap32(now + STATUS_MS);
      }
    }

    /** `s` is the state at the start of the cycle. */
    method TickDc(now: u32, src: u8, v: Readings, out: array<Frame>, at: nat, ghost s: Sched) returns (count: nat)
      requires at == Used2(s, now, true, out.Length) <= out.Length
      requires s.rbm == View().rbm && s.dc1 == nextDc1 && s.dc2 == nextDc2
      modifies this`nextDc1, this`nextDc2, out
      ensures at <= count <= out.Length && out[..count] == old(out[..at]) + DcFrames(s, now, true, out.Length, src, v)
      ensures out[count..] == old(out[..])[count..]
      ensures var t := Ticked(s, now, true, out.Length); nextDc1 == t.dc1 && nextDc2 == t.dc2
    {
      hide Due, Dc1Frame, Dc2Frame, Used2;
      count := at;
      var held := masterSeen && Sub32(now, masterLast) < TIMEOUT_MS;
      if held {
        nextDc1, nextDc2 := now, now;
      } else {
        if Due(now, nextDc1) && count < out.Length {
          count := Emit(Dc1Frame(ours, src, v), out, count);
          nextDc1 := Wrap32(now + STATUS_MS);
        }
        if Due(now, nextDc2) && count < out.Length {
          count := Emit(Dc2Frame(ours, src, v), out, count);
          nextDc2 := Wrap32(now + STATUS_MS);
        }
      }
    }

    method Tick(now: u32, ready: bool, src: u8, v: Readings, out: array<Frame>) returns (count: nat)
      modifies this, out
      ensures View() == Ticked(old(View()), now, ready, out.Length)
      ensures count <= out.Length && out[..count] == TickFrames(old(View()), now, ready, out.Length, src, v)
      ensures out[count..] == old(out[..])[count..]
    {
      count := 0;
      if !ready { return; }
      ghost var s := View();
      hide OwnFrames, DcFrames, Defer, SendsCharger, SendsCharger2, SendsDc1, SendsDc2;
      count := TickOwn(now, src, v, out);
      count := TickDc(now, src, v, out, count, s);
    }
  }

  // ---- what one frame does to a listener -----------------------------------------------------

  /** A frame that carries a priority in the election. */
  lemma DcFramesAreHeard(r: Rbm, now: u32, ours: u8, src: u8, v: Readings)
    ensures Heard(r, now, Dc1Frame(ours, src, v)) == if ours <= r.ours then r else r.(seen := true, best := ours, last := now)
    ensures Heard(r, now, Dc2Frame(ours, src, v)) == if ours <= r.ours then r else r.(seen := true, best := ours, last := now)
  {
    CanIdFields(PRI_STATUS, DGN_DC1, src, 255);
    CanIdFields(PRI_STATUS, DGN_DC2, src, 255);
  }

  lemma ChargerFramesAreNot(r: Rbm, now: u32, ours: u8, src: u8, v: Readings)
    ensures Heard(r, now, ChargerFrame(src, v)) == r && Heard(r, now, Charger2Frame(ours, src, v)) == r
  {
    CanIdFields(PRI_STATUS, DGN_CHARGER, src, 255);
    CanIdFields(PRI_STATUS, DGN_CHARGER2, src, 255);
  }

  function HeardAll(r: Rbm, now: u32, fs: seq<Frame>): Rbm
    decreases |fs|
  {
    if fs == [] then r else HeardAll(Heard(r, now, fs[0]), now, fs[1..])
  }

  /** What a whole cycle of one node means to another: the sender's priority was heard
      now, if it spoke for the DC source and ranks higher; nothing otherwise. */
  lemma CycleHeard(r: Rbm, at: u32, s: Sched, now: u32, ready: bool, room: nat, src: u8, v: Readings)
    ensures HeardAll(r, at, TickFrames(s, now, ready, room, src, v)) ==
            if (SendsDc1(s, now, ready, room) || SendsDc2(s, now, ready, room)) && s.rbm.ours > r.ours
            then r.(seen := true, best := s.rbm.ours, last := at) else r
  {
    hide OwnFrames, DcFrames, SendsDc1, SendsDc2;
    HeardInTurn(r, at, OwnFrames(s, now, ready, room, src, v), DcFrames(s, now, ready, room, src, v));
    OwnNotHeard(r, at, s, now, ready, room, src, v);
    DcHeard(r, at, s, now, ready, room, src, v);
  }

  lemma HeardPair(r: Rbm, at: u32, a: bool, f: Frame, b: bool, g: Frame)
    ensures HeardAll(r, at, (if a then [f] else []) + (if b then [g] else [])) ==
            var m := if a then Heard(r, at, f) else r; if b then Heard(m, at, g) else m
  {
    hide Heard;
    HeardInTurn(r, at, if a then [f] else [], if b then [g] else []);
    assert [f][1..] == [] && [g][1..] == [];
  }

  lemma OwnNotHeard(r: Rbm, at: u32, s: Sched, now: u32, ready: bool, room: nat, src: u8, v: Readings)
    ensures HeardAll(r, at, OwnFrames(s, now, ready, room, src, v)) == r
  {
    hide ChargerFrame, Charger2Frame, Heard, SendsCharger, SendsCharger2;
    ChargerFramesAreNot(r, at, s.rbm.ours, src, v);
    HeardPair(r, at, SendsCharger(s, now, ready, room), ChargerFrame(src, v),
              SendsCharger2(s, now, ready, room), Charger2Frame(s.rbm.ours, src, v));
  }

  lemma DcHeard(r: Rbm, at: u32, s: Sched, now: u32, ready: bool, room: nat, src: u8, v: Readings)
    ensures HeardAll(r, at, DcFrames(s, now, ready, room, src, v)) ==
            if (SendsDc1(s, now, ready, room) || SendsDc2(s, now, ready, room)) && s.rbm.ours > r.ours
            then r.(seen := true, best := s.rbm.ours, last := at) else r
  {
    hide Dc1Frame, Dc2Frame, Heard, SendsDc1, SendsDc2;
    var ours := s.rbm.ours;
    DcFramesAreHeard(r, at, ours, src, v);
    DcFramesAreHeard(Heard(r, at, Dc1Frame(ours, src, v)), at, ours, src, v);
    HeardPair(r, at, SendsDc1(s, now, ready, room), Dc1Frame(ours, src, v),
              SendsDc2(s, now, ready, room), Dc2Frame(ours, src, v));
  }

  lemma {:induction false} HeardInTurn(r: Rbm, at: u32, a: seq<Frame>, b: seq<Frame>)
    ensures HeardAll(r, at, a + b) == HeardAll(HeardAll(r, at, a), at, b)
    decreases |a|
  {
    if a == [] {
      assert a + b == b;
    } else {
      assert (a + b)[1..] == a[1..] + b;
      HeardInTurn(Heard(r, at, a[0]), at, a[1..], b);
    }
  }
}
