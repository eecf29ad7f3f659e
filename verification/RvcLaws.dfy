/** The cadence of one RV-C node and its frames on the wire, in milliseconds and in identifier
    and payload bytes. */
module RvcLaws {
  import opened Words
  import opened CanIds
  import opened RvcSched

  // ---- when a message comes again ------------------------------------------------------------------

  function Later(s: Sched, now: u32, room: nat): Sched { Ticked(s, now, true, room) }

  /** What was sent now is sent again in the first cycle with room that is 5000, 500, 500 and 500 ms
      later, and in none before. */
  lemma Cadence(s: Sched, now: u32, room: nat, d: nat)
    requires d < 0x8000_0000 && room >= 4
    ensures var (t, at) := (Later(s, now, room), Wrap32(now + d));
            && (SendsCharger(s, now, true, room) ==> (SendsCharger(t, at, true, room) <==> d >= 5000))
            && (SendsCharger2(s, now, true, room) ==> (SendsCharger2(t, at, true, room) <==> d >= 500))
            && (SendsDc1(s, now, true, room) ==> (SendsDc1(t, at, true, room) <==> d >= 500 && !Defer(s.rbm, at)))
            && (SendsDc2(s, now, true, room) ==> (SendsDc2(t, at, true, room) <==> d >= 500 && !Defer(s.rbm, at)))
  {
    hide Due, Defer;
    DueAfter(now, 5000, d);
    DueAfter(now, 500, d);
  }

  /** A node that deferred speaks in full in the first cycle with room in which it no longer does. */
  lemma SpeaksAfterDeferring(s: Sched, now: u32, room: nat, d: nat)
    requires d < 0x8000_0000 && room >= 4 && Defer(s.rbm, now) && !Defer(s.rbm, Wrap32(now + d))
    ensures var (t, at) := (Later(s, now, room), Wrap32(now + d));
            SendsDc1(t, at, true, room) && SendsDc2(t, at, true, room)
  {
    hide Due, Defer;
    DueAfter(now, 0, d);
  }

  /** What there is no room for, or no address, waits: nothing of it changes. */
  lemma WaitsForRoom(s: Sched, now: u32, ready: bool, room: nat)
    requires !ready || room == 0
    ensures var t := Ticked(s, now, ready, room);
            && t.charger == s.charger && t.charger2 == s.charger2 && t.rbm == s.rbm
            && (!ready || !Defer(s.rbm, now) ==> t == s)
  {}

  /** A short buffer takes the first of the frames a long one would get, as many as it holds. */
  lemma ShortBuffer(s: Sched, now: u32, ready: bool, room: nat, src: u8, v: Readings)
    ensures var all := TickFrames(s, now, ready, 4, src, v);
            TickFrames(s, now, ready, room, src, v) == all[..Min(room, |all|)]
  {
    hide Due, Defer, ChargerFrame, Charger2Frame, Dc1Frame, Dc2Frame;
  }

  // ---- the election, from the bytes of a frame -------------------------------------------------------

  /** The frame is DC_SOURCE_STATUS_1 or _2 by bits 8 to 24 of its identifier. */
  predicate SpeaksForSource(f: Frame) { f.id / 0x100 % 0x2_0000 == 0x1_FFFD || f.id / 0x100 % 0x2_0000 == 0x1_FFFC }

  lemma GroupIs(id: u32, group: nat)
    requires group == 0x1_FFFD || group == 0x1_FFFC
    ensures IdPgn(id) == group <==> id / 0x100 % 0x2_0000 == group
  {}

  /** A node gives way to strictly higher priorities, for 1500 ms from the last it heard, on a
      clock of 32 bits; no other frame means anything to it. */
  lemma ElectionLaw(r: Rbm, now: u32, f: Frame, d: nat)
    ensures var h := Heard(r, now, f);
            if SpeaksForSource(f) && |f.data| >= 2 && f.data[1] > r.ours then
              h.ours == r.ours && (Defer(h, Wrap32(now + d)) <==> d % 0x1_0000_0000 < 1500)
            else h == r
    ensures !r.seen ==> !Defer(r, now)
  {
    GroupIs(f.id, 0x1_FFFD);
    GroupIs(f.id, 0x1_FFFC);
    SubOfWraps(now + d, now);
  }

  // ---- on the wire ---------------------------------------------------------------------------------------

  /** Priority 6, the four group numbers, to everybody; the instance is 1, and the device priority
      follows it, or the two instances of CHARGER_STATUS_2. */
  lemma OnTheWire(ours: u8, src: u8, v: Readings)
    ensures ChargerFrame(src, v) == Frame(0x19FF_C700 + src, [1] + v.charger)
    ensures Charger2Frame(ours, src, v) == Frame(0x19FE_A300 + src, [1, 1, ours] + v.charger2)
    ensures Dc1Frame(ours, src, v) == Frame(0x19FF_FD00 + src, [1, ours] + v.dc1)
    ensures Dc2Frame(ours, src, v) == Frame(0x19FF_FC00 + src, [1, ours] + v.dc2)
  {}
}
