/** Any number of RV-C nodes on one bus: who may speak for the DC source, how soon the
    next one takes over, and how often one may speak. Frames reach every other node in
    the step that sends them. A station also remembers the true times its node only
    keeps modulo 2^32. */
module RvcElection {
  import opened Words
  import opened CanIds
  import opened RvcSched

  /** `next1` is when DC_SOURCE_STATUS_1 falls due, `sent1` when it was last sent (-1 for
      never), `hold` the start of the deferral the node last counted from. */
  datatype Station = Station(n: Sched, boot: nat, lastTick: nat, next1: nat, sent1: int, hold: nat)

  datatype Sent = Sent(at: nat, who: nat, first: bool)

  datatype Bus = Bus(now: nat, st: seq<Station>, log: seq<Sent>)

  datatype Action =
    | Advance(ms: nat)
    | Join(priority: u8)
    | Tick(i: nat, ready: bool, room: nat, src: u8, v: Readings)

  function Prio(s: Station): u8 { s.n.rbm.ours }

  function Local(s: Station, now: nat): u32 { Wrap32(now - s.boot) }

  predicate Speaks1(s: Station, now: nat, ready: bool, room: nat) { SendsDc1(s.n, Local(s, now), ready, room) }

  predicate Speaks2(s: Station, now: nat, ready: bool, room: nat) { SendsDc2(s.n, Local(s, now), ready, room) }

  predicate Holds(s: Station, now: nat) { Defer(s.n.rbm, Local(s, now)) }

  /** A station after its own cycle. */
  function AfterTick(s: Station, now: nat, ready: bool, room: nat): Station
    requires s.boot <= now
  {
    var held := ready && Holds(s, now);
    Station(Ticked(s.n, Local(s, now), ready, room), s.boot, now,
            if held then now else if Speaks1(s, now, ready, room) then now + STATUS_MS else s.next1,
            if Speaks1(s, now, ready, room) then now else s.sent1,
            if held && Sub32(Local(s, now), s.n.rbm.last) <= now - s.boot
            then now - Sub32(Local(s, now), s.n.rbm.last) else s.hold)
  }

  /** A station after it heard another one's cycle. */
  function AfterHearing(s: Station, now: nat, from: Station, ready: bool, room: nat, src: u8, v: Readings): Station
  {
    var rbm := HeardAll(s.n.rbm, Local(s, now), TickFrames(from.n, Local(from, now), ready, room, src, v));
    var higher := (Speaks1(from, now, ready, room) || Speaks2(from, now, ready, room)) && Prio(from) > Prio(s);
    s.(n := s.n.(rbm := rbm), hold := if higher then now else s.hold)
  }

  function Words1(b: Bus, i: nat, ready: bool, room: nat): (w: seq<Sent>)
    requires i < |b.st|
  {
    (if Speaks1(b.st[i], b.now, ready, room) then [Sent(b.now, i, true)] else []) +
    (if Speaks2(b.st[i], b.now, ready, room) then [Sent(b.now, i, false)] else [])
  }

  /** The stations in `live` call tick at most `gap` ms apart, with their address claimed
      and room for all four messages; nothing is asked of the others. */
  predicate Enabled(b: Bus, a: Action, gap: nat, live: set<nat>)
  {
    match a
    case Advance(ms) => forall i :: i in live && i < |b.st| ==> b.now + ms <= b.st[i].lastTick + gap
    case Join(p) => forall i :: 0 <= i < |b.st| ==> Prio(b.st[i]) != p
    case Tick(i, ready, room, _, _) => i < |b.st| && b.st[i].boot <= b.now && (i in live ==> ready && room >= 4)
  }

  function Step(b: Bus, a: Action): Bus
    requires a.Tick? ==> a.i < |b.st| && b.st[a.i].boot <= b.now
  {
    match a
    case Advance(ms) => b.(now := b.now + ms)
    case Join(p) => b.(st := b.st + [Station(Initial(p), b.now, b.now, b.now, -1, b.now)])
    case Tick(i, ready, room, src, v) =>
      Bus(b.now,
          seq(|b.st|, j requires 0 <= j < |b.st| =>
              if j == i then AfterTick(b.st[i], b.now, ready, room)
              else AfterHearing(b.st[j], b.now, b.st[i], ready, room, src, v)),
          b.log + Words1(b, i, ready, room))
  }

  ghost predicate Next(b: Bus, c: Bus, gap: nat, live: set<nat>)
  {
    exists a :: Enabled(b, a, gap, live) && c == Step(b, a)
  }

  ghost predicate IsSegment(r: seq<Bus>, gap: nat, live: set<nat>)
  {
    |r| > 0 && forall k :: 0 <= k < |r| - 1 ==> Next(r[k], r[k + 1], gap, live)
  }

  /** A run starts with an empty bus and asks nothing of anybody. */
  ghost predicate IsRun(r: seq<Bus>) { IsSegment(r, 0, {}) && r[0].st == [] && r[0].log == [] }

  // ---- what every run keeps --------------------------------------------------------------------

  ghost predicate StationOk(s: Station, now: nat)
  {
    && s.boot <= s.lastTick <= now
    && s.boot <= s.next1 && s.n.dc1 == Wrap32(s.next1 - s.boot)
    && (s.sent1 == -1 || s.boot <= s.sent1 <= s.lastTick)
    && (s.next1 <= s.lastTick || (s.sent1 >= 0 && s.next1 == s.sent1 + STATUS_MS))
    && (s.n.rbm.seen ==> s.boot <= s.hold <= now && s.n.rbm.last == Wrap32(s.hold - s.boot))
    && (s.sent1 >= 0 ==> s.next1 >= s.sent1 + STATUS_MS || (s.n.rbm.seen && s.hold >= s.sent1))
    && (s.sent1 >= 0 && s.n.rbm.seen ==>
          s.hold >= s.sent1 || Sub32(Local(s, s.sent1), s.n.rbm.last) >= TIMEOUT_MS)
  }

  /** A node that ever deferred did so to a station that is there. */
  ghost predicate HasMaster(b: Bus, s: Station)
  {
    s.n.rbm.seen ==> exists j :: 0 <= j < |b.st| && Prio(b.st[j]) > Prio(s)
  }

  ghost predicate LogOk(b: Bus)
  {
    && (forall k :: 0 <= k < |b.log| ==> b.log[k].who < |b.st|)
    && (forall k :: 0 <= k < |b.log| && b.log[k].first ==> b.log[k].at <= b.st[b.log[k].who].sent1)
    && (forall j, k :: 0 <= j < k < |b.log| && b.log[j].first && b.log[k].first && b.log[j].who == b.log[k].who ==>
          b.log[k].at >= b.log[j].at + 500)
  }

  ghost predicate BusOk(b: Bus)
  {
    && (forall i :: 0 <= i < |b.st| ==> StationOk(b.st[i], b.now) && HasMaster(b, b.st[i]))
    && (forall i, j :: 0 <= i < |b.st| && 0 <= j < |b.st| && Prio(b.st[i]) == Prio(b.st[j]) ==> i == j)
    && LogOk(b)
  }

  // ---- clock arithmetic --------------------------------------------------------------------------

  /** Within half a wrap, the signed comparison is the comparison of true times. */
  lemma DueIsExact(now: nat, next: nat, boot: nat)
    requires boot <= now && boot <= next && now < next + 0x8000_0000 && next <= now + 0x8000_0000
    ensures Due(Wrap32(now - boot), Wrap32(next - boot)) <==> now >= next
  {
    if now >= next {
      ElapsedIsExact(now - boot, next - boot);
    } else {
      ElapsedIsExact(next - boot, now - boot);
      Negated(Wrap32(now - boot), Wrap32(next - boot));
    }
  }

  lemma Negated(a: u32, b: u32)
    requires a != b
    ensures Sub32(a, b) == POW32 - Sub32(b, a)
  {}

  /** The window a deferral is counted from, recovered from the clock. */
  lemma HoldStart(now: nat, boot: nat, last: u32)
    requires boot <= now && Sub32(Wrap32(now - boot), last) <= now - boot
    ensures Wrap32(now - Sub32(Wrap32(now - boot), last) - boot) == last
  {
    var e := Sub32(Wrap32(now - boot), last);
    var x := now - boot;
    assert x == x / POW32 * POW32 + x % POW32;
  }

  lemma LaterWindow(now: nat, hold: nat, boot: nat)
    requires boot <= hold <= now
    ensures var e := Sub32(Wrap32(now - boot), Wrap32(hold - boot)); e <= now - hold
  {
    var (x, y) := (now - boot, hold - boot);
    SubOfWraps(x, y);
    assert (x - y) % POW32 <= x - y;
  }

  // ---- one station -------------------------------------------------------------------------------

  /** DC_SOURCE_STATUS_1 is never sent twice within 500 ms, deferrals or not. */
  lemma SpacedOut(s: Station, now: nat, ready: bool, room: nat)
    requires StationOk(s, now) && Speaks1(s, now, ready, room) && s.sent1 >= 0
    ensures now >= s.sent1 + STATUS_MS
  {
    hide Due, Sub32;
    if now < s.next1 { DueIsExact(now, s.next1, s.boot); }
    if s.n.rbm.seen && s.hold >= s.sent1 && now < s.hold + TIMEOUT_MS { ElapsedIsExact(now - s.boot, s.hold - s.boot); }
  }

  lemma SpeakingKeepsStation(s: Station, now: nat, ready: bool, room: nat)
    requires StationOk(s, now) && Speaks1(s, now, ready, room)
    ensures StationOk(AfterTick(s, now, ready, room), now)
  {
    hide Due, Sub32;
    WrapAdd(now - s.boot, STATUS_MS);
  }

  lemma HeldKeepsStation(s: Station, now: nat, room: nat)
    requires StationOk(s, now) && Holds(s, now)
    ensures StationOk(AfterTick(s, now, true, room), now)
  {
    hide Due, Sub32, Wrap32;
    var e := Sub32(Local(s, now), s.n.rbm.last);
    LaterWindow(now, s.hold, s.boot);
    HoldStart(now, s.boot, s.n.rbm.last);
    if 0 <= s.sent1 && now - e < s.sent1 { ElapsedIsExact(s.sent1 - s.boot, now - e - s.boot); }
  }

  lemma TickKeepsStation(s: Station, now: nat, ready: bool, room: nat)
    requires StationOk(s, now)
    ensures StationOk(AfterTick(s, now, ready, room), now)
  {
    if Speaks1(s, now, ready, room) {
      SpeakingKeepsStation(s, now, ready, room);
    } else if ready && Holds(s, now) {
      HeldKeepsStation(s, now, room);
    }
  }

  lemma HearingIs(s: Station, now: nat, from: Station, ready: bool, room: nat, src: u8, v: Readings)
    ensures AfterHearing(s, now, from, ready, room, src, v) ==
            if (Speaks1(from, now, ready, room) || Speaks2(from, now, ready, room)) && Prio(from) > Prio(s)
            then s.(n := s.n.(rbm := s.n.rbm.(seen := true, best := Prio(from), last := Local(s, now))), hold := now) else s
  {
    hide SendsDc1, SendsDc2;
    CycleHeard(s.n.rbm, Local(s, now), from.n, Local(from, now), ready, room, src, v);
  }

  lemma HearingKeepsStation(s: Station, now: nat, from: Station, ready: bool, room: nat, src: u8, v: Readings)
    requires StationOk(s, now)
    ensures StationOk(AfterHearing(s, now, from, ready, room, src, v), now)
  {
    HearingIs(s, now, from, ready, room, src, v);
  }

  // ---- one step of the bus -----------------------------------------------------------------------

  lemma TickKeepsLog(b: Bus, i: nat, ready: bool, room: nat, src: u8, v: Readings)
    requires BusOk(b) && i < |b.st|
    ensures LogOk(Step(b, Tick(i, ready, room, src, v)))
  {
    var c := Step(b, Tick(i, ready, room, src, v));
    if Speaks1(b.st[i], b.now, ready, room) && b.st[i].sent1 >= 0 { SpacedOut(b.st[i], b.now, ready, room); }
  }

  lemma TickKeepsOk(b: Bus, i: nat, ready: bool, room: nat, src: u8, v: Readings)
    requires BusOk(b) && i < |b.st|
    ensures BusOk(Step(b, Tick(i, ready, room, src, v)))
  {
    assert b.st[i].boot <= b.now by { assert StationOk(b.st[i], b.now); }
    hide StationOk, LogOk, Holds, Speaks1, Speaks2, Ticked;
    var c := Step(b, Tick(i, ready, room, src, v));
    TickKeepsLog(b, i, ready, room, src, v);
    TickKeepsStation(b.st[i], b.now, ready, room);
    TickKeepsPrio(b.st[i], b.now, ready, room);
    forall j | 0 <= j < |b.st| && j != i
      ensures StationOk(c.st[j], c.now) && Prio(c.st[j]) == Prio(b.st[j])
      ensures (c.st[j].n.rbm.seen ==> b.st[j].n.rbm.seen || Prio(b.st[i]) > Prio(b.st[j]))
    {
      HearingKeepsStation(b.st[j], b.now, b.st[i], ready, room, src, v);
      HearingIs(b.st[j], b.now, b.st[i], ready, room, src, v);
    }
    forall j | 0 <= j < |b.st| ensures HasMaster(c, c.st[j]) {
      if j == i {
        if c.st[j].n.rbm.seen {
          var k :| 0 <= k < |b.st| && Prio(b.st[k]) > Prio(b.st[i]);
          assert Prio(c.st[k]) > Prio(c.st[j]);
        }
      } else if b.st[j].n.rbm.seen {
        var k :| 0 <= k < |b.st| && Prio(b.st[k]) > Prio(b.st[j]);
        assert Prio(c.st[k]) > Prio(c.st[j]);
      } else if c.st[j].n.rbm.seen {
        assert Prio(c.st[i]) > Prio(c.st[j]);
      }
    }
  }

  lemma TickKeepsPrio(s: Station, now: nat, ready: bool, room: nat)
    requires s.boot <= now
    ensures AfterTick(s, now, ready, room).n.rbm == s.n.rbm
  {}

  lemma JoinKeepsOk(b: Bus, p: u8)
    requires BusOk(b) && Enabled(b, Join(p), 0, {})
    ensures BusOk(Step(b, Join(p)))
  {
    var c := Step(b, Join(p));
    forall j | 0 <= j < |b.st| ensures HasMaster(c, c.st[j]) {
      if c.st[j].n.rbm.seen {
        var k :| 0 <= k < |b.st| && Prio(b.st[k]) > Prio(b.st[j]);
        assert Prio(c.st[k]) > Prio(c.st[j]);
      }
    }
  }

  lemma StepKeepsOk(b: Bus, a: Action, gap: nat, live: set<nat>)
    requires BusOk(b) && Enabled(b, a, gap, live)
    ensures BusOk(Step(b, a))
  {
    match a
    case Advance(_) =>
    case Join(p) => JoinKeepsOk(b, p);
    case Tick(i, ready, room, src, v) => TickKeepsOk(b, i, ready, room, src, v);
  }

  lemma {:induction false} SegmentKeepsOk(r: seq<Bus>, gap: nat, live: set<nat>, k: nat)
    requires IsSegment(r, gap, live) && BusOk(r[0]) && k < |r|
    ensures BusOk(r[k])
  {
    hide BusOk, Step;
    if k > 0 {
      SegmentKeepsOk(r, gap, live, k - 1);
      assert Next(r[k - 1], r[k - 1 + 1], gap, live);
      var a :| Enabled(r[k - 1], a, gap, live) && r[k] == Step(r[k - 1], a);
      StepKeepsOk(r[k - 1], a, gap, live);
    }
  }

  /** In every run, whatever the ticks and the wraps, the DC_SOURCE_STATUS_1 frames of one
      node are at least 500 ms apart. */
  lemma FramesSpaced(r: seq<Bus>, k: nat, i: nat, j: nat)
    requires IsRun(r) && k < |r| && i < j < |r[k].log|
    requires r[k].log[i].first && r[k].log[j].first && r[k].log[i].who == r[k].log[j].who
    ensures r[k].log[j].at >= r[k].log[i].at + 500
  {
    SegmentKeepsOk(r, 0, {}, k);
  }

  // ---- the elected master --------------------------------------------------------------------------

  predicate Highest(b: Bus, h: nat) { h < |b.st| && forall j :: 0 <= j < |b.st| && j != h ==> Prio(b.st[j]) < Prio(b.st[h]) }

  /** Station `h` has spoken and is about to again in time; the first `n` stations have
      all heard it, and whoever heard a higher one did so no earlier than that. */
  ghost predicate Reigns(b: Bus, h: nat, n: nat, gap: nat)
  {
    && h < n <= |b.st|
    && var s := b.st[h];
       && s.sent1 >= 0 && s.next1 == s.sent1 + STATUS_MS && s.lastTick < s.next1 && b.now <= s.lastTick + gap
       && forall j :: 0 <= j < |b.st| && j != h ==>
            (j < n ==> b.st[j].n.rbm.seen) && (b.st[j].n.rbm.seen ==> b.st[j].hold >= s.sent1)
  }

  lemma HighestNeverDefers(b: Bus, h: nat)
    requires BusOk(b) && Highest(b, h)
    ensures !b.st[h].n.rbm.seen
  {
    assert HasMaster(b, b.st[h]);
  }

  /** What the others have heard keeps them quiet. */
  lemma SubjectHolds(b: Bus, h: nat, n: nat, gap: nat, j: nat)
    requires BusOk(b) && Reigns(b, h, n, gap) && gap < 1000 && j < |b.st| && j != h && b.st[j].n.rbm.seen
    ensures Holds(b.st[j], b.now)
  {
    hide Wrap32, Sub32, LogOk, HasMaster;
    var s := b.st[j];
    assert StationOk(s, b.now) && StationOk(b.st[h], b.now);
    assert b.now - s.hold < TIMEOUT_MS;
    ElapsedIsExact(b.now - s.boot, s.hold - s.boot);
  }

  /** The master speaks at the first cycle that is due, and is heard. */
  lemma MasterSpeaks(b: Bus, h: nat, n: nat, gap: nat, room: nat)
    requires BusOk(b) && Highest(b, h) && Reigns(b, h, n, gap) && gap < 1000 && room >= 4
    ensures Speaks1(b.st[h], b.now, true, room) <==> b.now >= b.st[h].next1
  {
    var s := b.st[h];
    assert StationOk(s, b.now);
    HighestNeverDefers(b, h);
    DueIsExact(b.now, s.next1, s.boot);
  }

  lemma OthersTickInReign(b: Bus, h: nat, n: nat, gap: nat, i: nat, ready: bool, room: nat, src: u8, v: Readings)
    requires BusOk(b) && Highest(b, h) && Reigns(b, h, n, gap) && gap < 1000 && i < |b.st| && i != h
    ensures b.st[i].boot <= b.now
    ensures Reigns(Step(b, Tick(i, ready, room, src, v)), h, n, gap) && (i < n ==> Words1(b, i, ready, room) == [])
  {
    assert StationOk(b.st[i], b.now) && StationOk(b.st[h], b.now);
    if b.st[i].n.rbm.seen {
      SubjectHolds(b, h, n, gap, i);
      LaterWindow(b.now, b.st[i].hold, b.st[i].boot);
    }
    assert i < n ==> Words1(b, i, ready, room) == [];
    TickKeepsPrio(b.st[i], b.now, ready, room);
    hide StationOk, Holds, Speaks1, Speaks2;
    var c := Step(b, Tick(i, ready, room, src, v));
    forall j | 0 <= j < |b.st| && j != h
      ensures (j < n ==> c.st[j].n.rbm.seen) && (c.st[j].n.rbm.seen ==> c.st[j].hold >= b.st[h].sent1)
    {
      if j != i { HearingIs(b.st[j], b.now, b.st[i], ready, room, src, v); }
    }
    HearingIs(b.st[h], b.now, b.st[i], ready, room, src, v);
  }

  lemma MasterTicksInReign(b: Bus, h: nat, n: nat, gap: nat, room: nat, src: u8, v: Readings)
    requires BusOk(b) && Highest(b, h) && Reigns(b, h, n, gap) && gap < 1000 && room >= 4
    ensures b.st[h].boot <= b.now
    ensures Reigns(Step(b, Tick(h, true, room, src, v)), h, n, gap)
  {
    assert StationOk(b.st[h], b.now);
    MasterSpeaks(b, h, n, gap, room);
    HighestNeverDefers(b, h);
    hide StationOk, Speaks1, Speaks2;
    var c := Step(b, Tick(h, true, room, src, v));
    forall j | 0 <= j < |b.st| && j != h
      ensures (j < n ==> c.st[j].n.rbm.seen) && (c.st[j].n.rbm.seen ==> c.st[j].hold >= c.st[h].sent1)
    {
      HearingIs(b.st[j], b.now, b.st[h], true, room, src, v);
    }
  }

  /** `c` comes after `b` and the first `n` stations but `h` sent nothing in between. */
  ghost predicate OnlyMasterSpoke(b: Bus, c: Bus, h: nat, n: nat)
  {
    && b.log <= c.log && |b.st| <= |c.st|
    && forall m :: |b.log| <= m < |c.log| ==> c.log[m].who == h || c.log[m].who >= n
  }

  lemma StepInReign(b: Bus, a: Action, h: nat, n: nat, gap: nat)
    requires BusOk(b) && Highest(b, h) && Reigns(b, h, n, gap) && gap < 1000 && Enabled(b, a, gap, {h})
    ensures Reigns(Step(b, a), h, n, gap) && OnlyMasterSpoke(b, Step(b, a), h, n)
  {
    match a
    case Advance(_) =>
    case Join(_) =>
    case Tick(i, ready, room, src, v) =>
      if i == h { MasterTicksInReign(b, h, n, gap, room, src, v); }
      else { OthersTickInReign(b, h, n, gap, i, ready, room, src, v); }
  }

  lemma HighestBefore(b: Bus, a: Action, gap: nat, live: set<nat>, h: nat)
    requires BusOk(b) && Enabled(b, a, gap, live) && h < |b.st| && Highest(Step(b, a), h)
    ensures Highest(b, h)
  {
    var c := Step(b, a);
    forall j | 0 <= j < |b.st| ensures Prio(c.st[j]) == Prio(b.st[j]) {
      if a.Tick? && j != a.i { HearingIs(b.st[j], b.now, b.st[a.i], a.ready, a.room, a.src, a.v); }
    }
  }

  lemma {:induction false} ReignLasts(r: seq<Bus>, gap: nat, h: nat, n: nat, k: nat)
    requires IsSegment(r, gap, {h}) && BusOk(r[0]) && Reigns(r[0], h, n, gap) && gap < 1000
    requires k < |r| && Highest(r[k], h)
    ensures Reigns(r[k], h, n, gap) && OnlyMasterSpoke(r[0], r[k], h, n)
  {
    hide BusOk, Step, Reigns, Highest;
    if k > 0 {
      SegmentKeepsOk(r, gap, {h}, k - 1);
      StationsStay(r, gap, {h}, k - 1, h);
      assert Next(r[k - 1], r[k - 1 + 1], gap, {h});
      var a :| Enabled(r[k - 1], a, gap, {h}) && r[k] == Step(r[k - 1], a);
      HighestBefore(r[k - 1], a, gap, {h}, h);
      ReignLasts(r, gap, h, n, k - 1);
      StepInReign(r[k - 1], a, h, n, gap);
    }
  }

  lemma {:induction false} StationsStay(r: seq<Bus>, gap: nat, live: set<nat>, k: nat, h: nat)
    requires IsSegment(r, gap, live) && k < |r| && (h < |r[0].st| || exists n, g :: Reigns(r[0], h, n, g))
    ensures h < |r[k].st|
  {
    if k > 0 {
      StationsStay(r, gap, live, k - 1, h);
      assert Next(r[k - 1], r[k - 1 + 1], gap, live);
    }
  }

  /** Once the highest-priority station has sent DC_SOURCE_STATUS_1, and as long as it
      keeps ticking less than a second apart, no station that was there to hear it sends
      a DC source message. */
  lemma MasterSilencesOthers(p: seq<Bus>, h: nat, room: nat, src: u8, v: Readings, r: seq<Bus>, gap: nat, k: nat)
    requires IsRun(p) && h < |p[|p| - 1].st| && p[|p| - 1].st[h].boot <= p[|p| - 1].now
    requires Speaks1(p[|p| - 1].st[h], p[|p| - 1].now, true, room)
    requires IsSegment(r, gap, {h}) && r[0] == Step(p[|p| - 1], Tick(h, true, room, src, v)) && gap < 1000
    requires k < |r| && Highest(r[k], h)
    ensures OnlyMasterSpoke(r[0], r[k], h, |r[0].st|)
  {
    var b := p[|p| - 1];
    SegmentKeepsOk(p, 0, {}, |p| - 1);
    TickKeepsOk(b, h, true, room, src, v);
    ReignStarts(b, h, room, src, v, r, gap, k);
    ReignLasts(r, gap, h, |r[0].st|, k);
  }

  lemma ReignStarts(b: Bus, h: nat, room: nat, src: u8, v: Readings, r: seq<Bus>, gap: nat, k: nat)
    requires BusOk(b) && h < |b.st| && b.st[h].boot <= b.now && Speaks1(b.st[h], b.now, true, room)
    requires IsSegment(r, gap, {h}) && r[0] == Step(b, Tick(h, true, room, src, v)) && k < |r| && Highest(r[k], h)
    requires BusOk(r[0])
    ensures Reigns(r[0], h, |r[0].st|, gap)
  {
    HighestThroughout(r, gap, {h}, h, k);
    var c := r[0];
    assert StationOk(b.st[h], b.now);
    forall j | 0 <= j < |b.st| && j != h ensures c.st[j].n.rbm.seen && c.st[j].hold >= c.st[h].sent1 {
      HearingIs(b.st[j], b.now, b.st[h], true, room, src, v);
      assert Prio(c.st[j]) < Prio(c.st[h]);
      TickKeepsPrio(b.st[h], b.now, true, room);
    }
  }

  lemma {:induction false} HighestThroughout(r: seq<Bus>, gap: nat, live: set<nat>, h: nat, k: nat)
    requires IsSegment(r, gap, live) && BusOk(r[0]) && h < |r[0].st| && k < |r| && Highest(r[k], h)
    ensures Highest(r[0], h)
  {
    hide BusOk, Step, Highest;
    if k > 0 {
      SegmentKeepsOk(r, gap, live, k - 1);
      StationsStay(r, gap, live, k - 1, h);
      assert Next(r[k - 1], r[k - 1 + 1], gap, live);
      var a :| Enabled(r[k - 1], a, gap, live) && r[k] == Step(r[k - 1], a);
      HighestBefore(r[k - 1], a, gap, live, h);
      HighestThroughout(r, gap, live, h, k - 1);
    }
  }

  /** Nobody ranked above station `n` spoke between `b` and `c`. */
  ghost predicate NoneAbove(b: Bus, c: Bus, n: nat)
  {
    && n < |b.st| <= |c.st| && b.log <= c.log
    && forall m :: |b.log| <= m < |c.log| && c.log[m].who < |c.st| ==> Prio(c.st[c.log[m].who]) <= Prio(c.st[n])
  }

  // ---- who else speaks in a reign ------------------------------------------------------------------

  /** In a reign every station that has heard a higher one defers, and no other does. */
  lemma SpeaksIfUnaware(b: Bus, h: nat, n: nat, gap: nat, j: nat, ready: bool, room: nat)
    requires BusOk(b) && Reigns(b, h, n, gap) && gap < 1000 && j < |b.st| && j != h
    ensures var (s, now) := (b.st[j], Local(b.st[j], b.now));
            && (Speaks1(s, b.now, ready, room) <==>
                  !s.n.rbm.seen && ready && Due(now, s.n.dc1) && Used2(s.n, now, ready, room) < room)
            && (Speaks2(s, b.now, ready, room) <==>
                  !s.n.rbm.seen && ready && Due(now, s.n.dc2) && Used3(s.n, now, ready, room) < room)
  {
    if b.st[j].n.rbm.seen { SubjectHolds(b, h, n, gap, j); }
  }

  lemma TickInforms(b: Bus, i: nat, ready: bool, room: nat, src: u8, v: Readings, j: nat)
    requires i < |b.st| && b.st[i].boot <= b.now && j < |b.st|
    ensures var c := Step(b, Tick(i, ready, room, src, v));
            && (c.st[j].n.rbm.seen <==> b.st[j].n.rbm.seen || !NoneAbove(b, c, j))
            && forall k :: 0 <= k < |b.st| ==> Prio(c.st[k]) == Prio(b.st[k])
  {
    var c := Step(b, Tick(i, ready, room, src, v));
    TickKeepsPrio(b.st[i], b.now, ready, room);
    forall k | 0 <= k < |b.st| && k != i
      ensures Prio(c.st[k]) == Prio(b.st[k])
      ensures c.st[k].n.rbm.seen <==> b.st[k].n.rbm.seen || (Words1(b, i, ready, room) != [] && Prio(b.st[i]) > Prio(b.st[k]))
    {
      HearingIs(b.st[k], b.now, b.st[i], ready, room, src, v);
    }
    hide Speaks1, Speaks2;
    var w := Words1(b, i, ready, room);
    assert forall m :: |b.log| <= m < |c.log| ==> c.log[m] == w[m - |b.log|] && c.log[m].who == i;
    if w != [] { assert c.log[|b.log|].who == i; }
  }

  lemma NoneAboveExtends(b: Bus, m: Bus, c: Bus, j: nat)
    requires j < |b.st| <= |m.st| <= |c.st| && b.log <= m.log <= c.log
    requires forall k :: 0 <= k < |m.st| ==> Prio(c.st[k]) == Prio(m.st[k])
    requires forall k :: 0 <= k < |m.log| ==> m.log[k].who < |m.st|
    ensures NoneAbove(b, c, j) <==> NoneAbove(b, m, j) && NoneAbove(m, c, j)
  {
    if NoneAbove(b, c, j) { NoneAboveSplits(b, m, c, j); }
  }

  lemma StepInforms(b: Bus, a: Action, gap: nat, live: set<nat>, j: nat)
    requires BusOk(b) && Enabled(b, a, gap, live) && j < |b.st|
    ensures var c := Step(b, a); c.st[j].n.rbm.seen <==> b.st[j].n.rbm.seen || !NoneAbove(b, c, j)
  {
    if a.Tick? { TickInforms(b, a.i, a.ready, a.room, a.src, a.v, j); }
  }

  lemma JoinsUnaware(b: Bus, a: Action, j: nat)
    requires a.Tick? ==> a.i < |b.st| && b.st[a.i].boot <= b.now
    requires |b.st| == j < |Step(b, a).st|
    ensures !Step(b, a).st[j].n.rbm.seen
  {}

  /** A station has heard a higher one exactly if one has spoken since it joined. */
  lemma {:induction false} AwareIffSpoken(r: seq<Bus>, gap: nat, live: set<nat>, k0: nat, j: nat, k: nat)
    requires IsSegment(r, gap, live) && BusOk(r[0]) && k0 < k < |r|
    requires |r[k0].st| == j < |r[k0 + 1].st|
    ensures j < |r[k].st| && (r[k].st[j].n.rbm.seen <==> !NoneAbove(r[k0 + 1], r[k], j))
    ensures |r[k0 + 1].st| <= |r[k].st| && r[k0 + 1].log <= r[k].log
    decreases k
  {
    hide BusOk, Step, NoneAbove;
    SegmentKeepsOk(r, gap, live, k - 1);
    assert Next(r[k - 1], r[k - 1 + 1], gap, live);
    var a :| Enabled(r[k - 1], a, gap, live) && r[k] == Step(r[k - 1], a);
    if k == k0 + 1 {
      JoinsUnaware(r[k0], a, j);
      NothingSince(r[k], j);
    } else {
      AwareIffSpoken(r, gap, live, k0, j, k - 1);
      StepInforms(r[k - 1], a, gap, live, j);
      StepExtends(r[k - 1], a, gap, live);
      LogIsOurs(r[k - 1]);
      NoneAboveExtends(r[k0 + 1], r[k - 1], r[k], j);
    }
  }

  lemma NothingSince(b: Bus, j: nat)
    requires j < |b.st|
    ensures NoneAbove(b, b, j)
  {}

  lemma LogIsOurs(b: Bus)
    requires BusOk(b)
    ensures forall k :: 0 <= k < |b.log| ==> b.log[k].who < |b.st|
  {}

  /** Exactly who else speaks in a reign: a station that joined after it began, as long as nobody
      ranked above it has spoken since, in the cycles in which its messages are due and there
      is room for them. */
  lemma NewcomerSpeaks(p: seq<Bus>, h: nat, room: nat, src: u8, v: Readings, r: seq<Bus>, gap: nat, k0: nat, j: nat, k: nat,
                       ready: bool, free: nat)
    requires IsRun(p) && h < |p[|p| - 1].st| && p[|p| - 1].st[h].boot <= p[|p| - 1].now
    requires Speaks1(p[|p| - 1].st[h], p[|p| - 1].now, true, room)
    requires IsSegment(r, gap, {h}) && r[0] == Step(p[|p| - 1], Tick(h, true, room, src, v)) && gap < 1000
    requires k0 < k < |r| && Highest(r[k], h) && |r[k0].st| == j < |r[k0 + 1].st|
    ensures j < |r[k].st|
    ensures var (s, now) := (r[k].st[j], Local(r[k].st[j], r[k].now));
            && (Speaks1(s, r[k].now, ready, free) <==>
                  NoneAbove(r[k0 + 1], r[k], j) && ready && Due(now, s.n.dc1) && Used2(s.n, now, ready, free) < free)
            && (Speaks2(s, r[k].now, ready, free) <==>
                  NoneAbove(r[k0 + 1], r[k], j) && ready && Due(now, s.n.dc2) && Used3(s.n, now, ready, free) < free)
  {
    var b := p[|p| - 1];
    SegmentKeepsOk(p, 0, {}, |p| - 1);
    TickKeepsOk(b, h, true, room, src, v);
    hide BusOk, Reigns, Highest, Speaks1, Speaks2, Step, NoneAbove, Used2, Used3, Due;
    ReignStarts(b, h, room, src, v, r, gap, k);
    ReignLasts(r, gap, h, |r[0].st|, k);
    SegmentKeepsOk(r, gap, {h}, k);
    AwareIffSpoken(r, gap, {h}, k0, j, k);
    HighestIsOld(r, gap, h, k0);
    SpeaksIfUnaware(r[k], h, |r[0].st|, gap, j, ready, free);
  }

  lemma HighestIsOld(r: seq<Bus>, gap: nat, h: nat, k0: nat)
    requires IsSegment(r, gap, {h}) && k0 < |r| && h < |r[0].st|
    ensures h < |r[k0].st|
  {
    StationsStay(r, gap, {h}, k0, h);
  }

  function Fresh(p: u8): Station { Station(Initial(p), 0, 0, 0, -1, 0) }

  lemma FirstCycle(p: u8)
    ensures Speaks1(Fresh(p), 0, true, 4) && Speaks2(Fresh(p), 0, true, 4) && Prio(Fresh(p)) == p
    ensures var s := AfterTick(Fresh(p), 0, true, 4);
            s.sent1 == 0 && s.next1 == STATUS_MS && s.lastTick == 0 && Prio(s) == p && s.boot == 0
  {}

  /** A master that has spoken, and a station of lower rank that then joined. */
  function Crowned(v: Readings): Bus
  {
    Bus(0, [AfterTick(Fresh(120), 0, true, 4), Fresh(80)], [Sent(0, 0, true), Sent(0, 0, false)])
  }

  lemma CrownedReached(v: Readings)
    ensures exists r :: IsRun(r) && r[|r| - 1] == Crowned(v)
  {
    hide Speaks1, Speaks2, Prio;
    FirstCycle(120);
    var b0 := Bus(0, [], []);
    var b1 := Bus(0, [Fresh(120)], []);
    var b2 := Bus(0, [AfterTick(Fresh(120), 0, true, 4)], [Sent(0, 0, true), Sent(0, 0, false)]);
    assert Enabled(b0, Join(120), 0, {}) && Step(b0, Join(120)) == b1;
    assert Enabled(b1, Tick(0, true, 4, 0, v), 0, {}) && Step(b1, Tick(0, true, 4, 0, v)) == b2;
    hide AfterTick;
    assert Enabled(b2, Join(80), 0, {}) && Step(b2, Join(80)) == Crowned(v);
    var r := [b0, b1, b2, Crowned(v)];
    assert Next(r[0], r[1], 0, {}) && Next(r[1], r[2], 0, {}) && Next(r[2], r[3], 0, {});
    hide Next, Crowned;
    assert IsRun(r);
  }

  lemma RunExtends(r: seq<Bus>, c: Bus)
    requires IsRun(r) && Next(r[|r| - 1], c, 0, {})
    ensures IsRun(r + [c])
  {
    hide Next;
    var t := r + [c];
    forall k | 0 <= k < |t| - 1 ensures Next(t[k], t[k + 1], 0, {}) {
      if k < |r| - 1 { assert Next(r[k], r[k + 1], 0, {}); }
    }
  }

  /** The newcomer's first cycle. */
  lemma Interrupts(v: Readings)
    ensures var (b, c) := (Crowned(v), Step(Crowned(v), Tick(1, true, 4, 1, v)));
            && Next(b, c, 0, {}) && c.st == [b.st[0], AfterTick(Fresh(80), 0, true, 4)]
            && c.log == b.log + [Sent(0, 1, true), Sent(0, 1, false)] && c.now == 0
  {
    FirstCycle(120);
    FirstCycle(80);
    hide Speaks1, Speaks2, Prio, AfterTick;
    var (b, a) := (Crowned(v), Tick(1, true, 4, 1, v));
    assert Enabled(b, a, 0, {}) && Next(b, Step(b, a), 0, {});
    HearingIs(b.st[0], 0, b.st[1], true, 4, 1, v);
  }

  /** The case does arise: a master speaks, a station of lower rank joins and speaks too. */
  lemma NewcomerInReign(v: Readings)
    ensures exists r :: IsRun(r) && var b := r[|r| - 1];
              && Highest(b, 0) && Reigns(b, 0, 1, 0) && |b.st| == 2 && Prio(b.st[1]) < Prio(b.st[0])
              && Sent(0, 0, true) in b.log && Sent(0, 1, true) in b.log
  {
    CrownedReached(v);
    Interrupts(v);
    FirstCycle(120);
    FirstCycle(80);
    var r :| IsRun(r) && r[|r| - 1] == Crowned(v);
    hide Speaks1, Speaks2, Prio, AfterTick, IsSegment, Step, Next, Fresh;
    var c := Step(Crowned(v), Tick(1, true, 4, 1, v));
    RunExtends(r, c);
    assert c.log[0] == Sent(0, 0, true) && c.log[2] == Sent(0, 1, true);
    assert (r + [c])[|r + [c]| - 1] == c;
  }

  // ---- taking over ---------------------------------------------------------------------------------

  /** Station `n` counts any deferral from `hold`, and either waits for it to end, or has
      not ticked since time `t0`, or speaks on time. */
  ghost predicate TakesOver(b: Bus, n: nat, gap: nat, hold: nat, t0: nat)
  {
    && n < |b.st| && b.now <= b.st[n].lastTick + gap
    && var s := b.st[n];
       && (s.n.rbm.seen ==> s.hold == hold)
       && (|| (s.lastTick <= t0 && (t0 + gap < s.next1 + 0x8000_0000 || (s.n.rbm.seen && t0 + gap < hold + TIMEOUT_MS)))
           || (s.next1 >= s.lastTick && ((s.n.rbm.seen && s.lastTick < hold + TIMEOUT_MS)
                                       || (s.sent1 >= 0 && s.lastTick < s.sent1 + STATUS_MS))))
  }

  /** Half a wrap has not passed since the timer was set, so it is exact. */
  lemma TakeoverTick(b: Bus, n: nat, gap: nat, hold: nat, t0: nat, room: nat)
    requires n < |b.st| && StationOk(b.st[n], b.now) && TakesOver(b, n, gap, hold, t0) && gap < 1000 && room >= 4
    requires b.st[n].n.rbm.seen ==> b.now < hold + POW32
    ensures var s := AfterTick(b.st[n], b.now, true, room);
            && (s.n.rbm.seen ==> s.hold == hold)
            && s.next1 >= s.lastTick && ((s.n.rbm.seen && s.lastTick < hold + TIMEOUT_MS)
                                       || (s.sent1 >= 0 && s.lastTick < s.sent1 + STATUS_MS))
  {
    hide Due, Sub32;
    var s := b.st[n];
    if b.now < s.next1 + 0x8000_0000 { DueIsExact(b.now, s.next1, s.boot); }
    if s.n.rbm.seen { ElapsedIsExact(b.now - s.boot, s.hold - s.boot); }
  }

  lemma TakeoverHears(b: Bus, i: nat, ready: bool, room: nat, src: u8, v: Readings, n: nat)
    requires n < |b.st| && i < |b.st| && i != n && b.st[i].boot <= b.now
    requires NoneAbove(b, Step(b, Tick(i, ready, room, src, v)), n)
    ensures Step(b, Tick(i, ready, room, src, v)).st[n] == b.st[n]
  {
    var c := Step(b, Tick(i, ready, room, src, v));
    HearingIs(b.st[n], b.now, b.st[i], ready, room, src, v);
    TickKeepsPrio(b.st[i], b.now, ready, room);
    if Speaks1(b.st[i], b.now, ready, room) || Speaks2(b.st[i], b.now, ready, room) {
      assert c.log[|b.log|].who == i;
      assert Prio(c.st[n]) == Prio(b.st[n]);
    }
  }

  lemma StepTakesOver(b: Bus, a: Action, n: nat, gap: nat, hold: nat, t0: nat)
    requires BusOk(b) && Enabled(b, a, gap, {n}) && gap < 1000 && NoneAbove(b, Step(b, a), n)
    requires TakesOver(b, n, gap, hold, t0) && t0 <= b.now && (b.st[n].n.rbm.seen ==> b.now < hold + POW32)
    ensures TakesOver(Step(b, a), n, gap, hold, t0)
  {
    assert StationOk(b.st[n], b.now);
    match a
    case Advance(_) =>
    case Join(_) =>
    case Tick(i, ready, room, src, v) =>
      if i == n { TakeoverTick(b, n, gap, hold, t0, room); } else { TakeoverHears(b, i, ready, room, src, v, n); }
  }

  lemma StepExtends(b: Bus, a: Action, gap: nat, live: set<nat>)
    requires BusOk(b) && Enabled(b, a, gap, live)
    ensures var c := Step(b, a);
            && b.log <= c.log && |b.st| <= |c.st| && b.now <= c.now
            && forall j :: 0 <= j < |b.st| ==> Prio(c.st[j]) == Prio(b.st[j])
  {
    var c := Step(b, a);
    forall j | 0 <= j < |b.st| ensures Prio(c.st[j]) == Prio(b.st[j]) {
      if a.Tick? && j != a.i { HearingIs(b.st[j], b.now, b.st[a.i], a.ready, a.room, a.src, a.v); }
    }
  }

  lemma NoneAboveSplits(b: Bus, m: Bus, c: Bus, n: nat)
    requires NoneAbove(b, c, n) && n < |b.st| <= |m.st| <= |c.st| && b.log <= m.log <= c.log
    requires forall j :: 0 <= j < |m.st| ==> Prio(c.st[j]) == Prio(m.st[j])
    ensures NoneAbove(b, m, n) && NoneAbove(m, c, n)
  {
    forall k | |b.log| <= k < |m.log| && m.log[k].who < |m.st| ensures Prio(m.st[m.log[k].who]) <= Prio(m.st[n]) {
      assert c.log[k] == m.log[k];
    }
  }

  lemma {:induction false} SegmentGrows(r: seq<Bus>, gap: nat, live: set<nat>, k: nat)
    requires IsSegment(r, gap, live) && BusOk(r[0]) && k < |r|
    ensures r[0].log <= r[k].log && |r[0].st| <= |r[k].st| && r[0].now <= r[k].now
  {
    hide BusOk, Step;
    if k > 0 {
      SegmentGrows(r, gap, live, k - 1);
      SegmentKeepsOk(r, gap, live, k - 1);
      assert Next(r[k - 1], r[k - 1 + 1], gap, live);
      var a :| Enabled(r[k - 1], a, gap, live) && r[k] == Step(r[k - 1], a);
      StepExtends(r[k - 1], a, gap, live);
    }
  }

  lemma {:induction false} TakeoverRuns(r: seq<Bus>, gap: nat, n: nat, hold: nat, k: nat)
    requires IsSegment(r, gap, {n}) && BusOk(r[0]) && gap < 1000 && k < |r| && NoneAbove(r[0], r[k], n)
    requires TakesOver(r[0], n, gap, hold, r[0].now) && r[k].now < hold + POW32
    ensures TakesOver(r[k], n, gap, hold, r[0].now)
  {
    hide BusOk, Step, TakesOver, NoneAbove;
    if k > 0 {
      SegmentKeepsOk(r, gap, {n}, k - 1);
      SegmentGrows(r, gap, {n}, k - 1);
      assert Next(r[k - 1], r[k - 1 + 1], gap, {n});
      var a :| Enabled(r[k - 1], a, gap, {n}) && r[k] == Step(r[k - 1], a);
      StepExtends(r[k - 1], a, gap, {n});
      assert n < |r[0].st| by { AboveNeedsStation(r[0], r[k], n); }
      NoneAboveSplits(r[0], r[k - 1], r[k], n);
      TakeoverRuns(r, gap, n, hold, k - 1);
      StepTakesOver(r[k - 1], a, n, gap, hold, r[0].now);
    }
  }

  lemma AboveNeedsStation(b: Bus, c: Bus, n: nat)
    requires NoneAbove(b, c, n)
    ensures n < |b.st|
  {}

  /** If every station ranked above `n` falls silent, and `n` keeps ticking, then by 1500 ms
      and one tick gap later `n` speaks for the DC source and goes on doing so. The timer
      of `n` must not be half a clock wrap old, unless it is still deferring and sets it anew. */
  lemma NextTakesOver(p: seq<Bus>, r: seq<Bus>, gap: nat, n: nat, k: nat)
    requires IsRun(p) && IsSegment(r, gap, {n}) && r[0] == p[|p| - 1] && gap < 1000
    requires k < |r| && NoneAbove(r[0], r[k], n) && r[0].now <= r[0].st[n].lastTick + gap
    requires || r[0].now + gap < r[0].st[n].next1 + 0x8000_0000
             || (r[0].st[n].n.rbm.seen && r[0].now + gap < r[0].st[n].hold + TIMEOUT_MS)
    requires r[k].now < (if r[0].st[n].n.rbm.seen then r[0].st[n].hold else r[0].now) + POW32
    requires r[k].now >= r[0].now + 1500 + gap
    ensures n < |r[k].st| && r[0].now < r[k].st[n].sent1 && r[k].now < r[k].st[n].sent1 + 500 + gap
  {
    SegmentKeepsOk(p, 0, {}, |p| - 1);
    var hold := if r[0].st[n].n.rbm.seen then r[0].st[n].hold else r[0].now;
    assert StationOk(r[0].st[n], r[0].now);
    TakeoverRuns(r, gap, n, hold, k);
  }

  // ---- timers older than half a wrap -----------------------------------------------------------------

  /** A deadline counts as passed for half a wrap, then as future for half a wrap, and so on. */
  lemma DueIsModular(now: nat, next: nat, boot: nat)
    ensures Due(Wrap32(now - boot), Wrap32(next - boot)) <==> (now - next) % POW32 < 0x8000_0000
  {
    SubOfWraps(now - boot, next - boot);
  }

  /** So does a deferral: it comes back a whole wrap after the last master was heard. */
  lemma HoldsIsModular(s: Station, now: nat)
    requires StationOk(s, now)
    ensures Holds(s, now) <==> s.n.rbm.seen && (now - s.hold) % POW32 < 1500
  {
    SubOfWraps(now - s.boot, s.hold - s.boot);
  }

  /** Station `n` ran a cycle between `b` and `c`. */
  ghost predicate Ticks(b: Bus, c: Bus, n: nat)
  {
    exists room, src, v :: Enabled(b, Tick(n, true, room, src, v), 0, {n}) && c == Step(b, Tick(n, true, room, src, v))
  }

  /** Its timer, at the true time `next1`, counted as passed then. */
  ghost predicate TicksDue(b: Bus, c: Bus, n: nat, next1: nat) { Ticks(b, c, n) && (b.now - next1) % POW32 < 0x8000_0000 }

  /** `t` is `s` later on, its timer and what it has heard unchanged. */
  ghost predicate Waiting(s: Station, t: Station)
  {
    t.n.rbm == s.n.rbm && t.hold == s.hold && t.boot == s.boot && t.next1 == s.next1 && t.sent1 == s.sent1
  }

  lemma OwnTick(b: Bus, n: nat, room: nat, s: Station)
    requires n < |b.st| && StationOk(b.st[n], b.now) && Waiting(s, b.st[n]) && !Holds(s, b.now) && room >= 4
    ensures var t := AfterTick(b.st[n], b.now, true, room);
            if (b.now - s.next1) % POW32 < 0x8000_0000 then t.sent1 == b.now > s.sent1 else Waiting(s, t)
  {
    hide Due, Sub32;
    DueIsModular(b.now, s.next1, s.boot);
    if Speaks1(b.st[n], b.now, true, room) && s.sent1 >= 0 { SpacedOut(b.st[n], b.now, true, room); }
  }

  lemma OwnTickLater(b: Bus, n: nat, room: nat)
    requires n < |b.st| && StationOk(b.st[n], b.now)
    ensures AfterTick(b.st[n], b.now, true, room).sent1 >= b.st[n].sent1
  {}

  /** The next state of a station that waits, while nobody above it speaks. */
  lemma StepWaits(b: Bus, a: Action, n: nat, gap: nat, s: Station)
    requires BusOk(b) && Enabled(b, a, gap, {n}) && NoneAbove(b, Step(b, a), n) && Waiting(s, b.st[n]) && !Holds(s, b.now)
    ensures var t := Step(b, a).st[n];
            if TicksDue(b, Step(b, a), n, s.next1) then t.sent1 > s.sent1 else Waiting(s, t)
  {
    assert StationOk(b.st[n], b.now);
    hide BusOk, StationOk, Waiting, Holds, AfterTick, AfterHearing, Words1;
    var c := Step(b, a);
    if TicksDue(b, c, n, s.next1) {
      var room, src, v :| Enabled(b, Tick(n, true, room, src, v), 0, {n}) && c == Step(b, Tick(n, true, room, src, v));
      OwnTick(b, n, room, s);
    } else if a.Tick? && a.i == n {
      assert Enabled(b, Tick(n, true, a.room, a.src, a.v), 0, {n}) && c == Step(b, Tick(n, true, a.room, a.src, a.v));
      OwnTick(b, n, a.room, s);
    } else if a.Tick? {
      TakeoverHears(b, a.i, a.ready, a.room, a.src, a.v, n);
    }
  }

  lemma StepKeepsSent(b: Bus, a: Action, n: nat, gap: nat)
    requires BusOk(b) && Enabled(b, a, gap, {n}) && n < |b.st|
    ensures Step(b, a).st[n].sent1 >= b.st[n].sent1
  {
    assert StationOk(b.st[n], b.now);
    if a.Tick? && a.i == n { OwnTickLater(b, n, a.room); }
  }

  /** Exactly when a node that is not deferring takes over from stations that have fallen silent:
      it has sent DC_SOURCE_STATUS_1 if and only if it ran a cycle at a time its timer, taken
      modulo the clock wrap, counted as passed. Between half a wrap and a whole one after the
      timer was due, it never does. */
  lemma {:induction false} SpeaksExactlyWhenDue(r: seq<Bus>, gap: nat, n: nat, k: nat)
    requires IsSegment(r, gap, {n}) && BusOk(r[0]) && k < |r| && NoneAbove(r[0], r[k], n)
    requires forall j :: 0 <= j < k ==> !Holds(r[0].st[n], r[j].now)
    ensures n < |r[k].st| && r[k].st[n].sent1 >= r[0].st[n].sent1
    ensures r[k].st[n].sent1 > r[0].st[n].sent1 <==>
            exists j :: 0 <= j < k && TicksDue(r[j], r[j + 1], n, r[0].st[n].next1)
    ensures r[k].st[n].sent1 == r[0].st[n].sent1 ==> Waiting(r[0].st[n], r[k].st[n])
  {
    hide BusOk, Step, NoneAbove, TicksDue, Holds;
    AboveNeedsStation(r[0], r[k], n);
    if k > 0 {
      SegmentKeepsOk(r, gap, {n}, k - 1);
      SegmentGrows(r, gap, {n}, k - 1);
      assert Next(r[k - 1], r[k - 1 + 1], gap, {n});
      var a :| Enabled(r[k - 1], a, gap, {n}) && r[k] == Step(r[k - 1], a);
      StepExtends(r[k - 1], a, gap, {n});
      NoneAboveSplits(r[0], r[k - 1], r[k], n);
      SpeaksExactlyWhenDue(r, gap, n, k - 1);
      StepKeepsSent(r[k - 1], a, n, gap);
      if r[k - 1].st[n].sent1 == r[0].st[n].sent1 { StepWaits(r[k - 1], a, n, gap, r[0].st[n]); }
      assert TicksDue(r[k - 1], r[k - 1 + 1], n, r[0].st[n].next1) <==> TicksDue(r[k - 1], r[k], n, r[0].st[n].next1);
    }
  }

  /** So a node whose timer is half a wrap old keeps silent until the wrap is complete, however
      long the stations above it have been gone. */
  lemma StaleTimerKeepsSilent(r: seq<Bus>, gap: nat, n: nat, k: nat)
    requires IsSegment(r, gap, {n}) && BusOk(r[0]) && k < |r| && NoneAbove(r[0], r[k], n)
    requires forall j :: 0 <= j < k ==> !Holds(r[0].st[n], r[j].now)
    requires r[0].st[n].next1 + 0x8000_0000 <= r[0].now && r[k].now < r[0].st[n].next1 + POW32
    ensures n < |r[k].st| && r[k].st[n].sent1 == r[0].st[n].sent1
  {
    hide BusOk, Step, NoneAbove, Holds, Ticks, IsSegment;
    SpeaksExactlyWhenDue(r, gap, n, k);
    AboveNeedsStation(r[0], r[k], n);
    var next1 := r[0].st[n].next1;
    forall j | 0 <= j < k ensures !TicksDue(r[j], r[j + 1], n, next1) {
      LaterStill(r, gap, {n}, 0, j);
      LaterStill(r, gap, {n}, j, k);
      StaleIsNotDue(r[j].now, next1);
    }
  }

  lemma StaleIsNotDue(now: nat, next: nat)
    requires next + 0x8000_0000 <= now < next + POW32
    ensures (now - next) % POW32 >= 0x8000_0000
  {}

  lemma {:induction false} LaterStill(r: seq<Bus>, gap: nat, live: set<nat>, j: nat, k: nat)
    requires IsSegment(r, gap, live) && BusOk(r[0]) && j <= k < |r|
    ensures r[j].now <= r[k].now
    decreases k
  {
    hide BusOk, Step;
    if j < k {
      LaterStill(r, gap, live, j, k - 1);
      SegmentKeepsOk(r, gap, live, k - 1);
      assert Next(r[k - 1], r[k - 1 + 1], gap, live);
      var a :| Enabled(r[k - 1], a, gap, live) && r[k] == Step(r[k - 1], a);
      StepExtends(r[k - 1], a, gap, live);
    }
  }

  /** A node whose address is claimed half a clock wrap after boot finds nothing due; before that
      its first cycle with an address and enough room speaks. */
  lemma FirstTimerIsDue(now: u32, priority: u8, ready: bool, room: nat)
    ensures SendsDc1(Initial(priority), now, ready, room) <==> ready && room >= 3 && now < 0x8000_0000
    ensures SendsDc2(Initial(priority), now, ready, room) <==> ready && room >= 4 && now < 0x8000_0000
  {}
}
